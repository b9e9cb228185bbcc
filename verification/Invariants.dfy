/** What holds in every reachable state of the program. */
module Invariants {
  import opened Rust
  import opened Protocol
  import opened Lists
  import opened MapSums
  import opened Chain

  // ----- derived views

  ghost function Measured(positions: map<Pubkey, seq<Position>>, m: MarketId, measure: Measure): map<Pubkey, nat> {
    map u | u in positions :: Total(positions[u], m, measure)
  }

  ghost function Holdings(liquidity: map<Pubkey, seq<LiquidityEntry>>, m: MarketId): map<Pubkey, nat> {
    map u | u in liquidity :: SharesIn(liquidity[u], m)
  }

  /** The position is still in its owner's list. */
  predicate Live(s: State, id: PosId) {
    && id in s.tasks
    && s.tasks[id].user in s.positions
    && PositionIndex(s.positions[s.tasks[id].user], id).Some?
  }

  // ----- positions, tasks and counters

  ghost predicate TaskOk(t: Task, id: PosId) {
    && t.created.Id() == id && t.created.salt == t.salt
    && MIN_POSITION_COLLATERAL <= t.created.collateral <= MAX_POSITION_COLLATERAL
    && t.created.entryPrice > 0
    && t.created.expiresAt == t.openedAt + POSITION_DURATION_SECONDS
    && t.fired <= SETTLEMENT_TASK_ITERATIONS
  }

  ghost predicate Backed(tasks: map<PosId, Task>, u: Pubkey, p: Position) {
    p.Id() in tasks && tasks[p.Id()].user == u && tasks[p.Id()].created == p
  }

  ghost predicate ListOk(tasks: map<PosId, Task>, u: Pubkey, ps: seq<Position>) {
    && |ps| <= USER_POSITIONS_CAPACITY
    && DistinctIds(ps)
    && forall p :: p in ps ==> Backed(tasks, u, p)
  }

  /** Every position in a list is the one its task was scheduled for, and tasks exist for exactly
      the nonces that markets have handed out. */
  ghost predicate Custody(
    markets: map<MarketId, Market>, positions: map<Pubkey, seq<Position>>, tasks: map<PosId, Task>)
  {
    && (forall u :: u in positions ==> ListOk(tasks, u, positions[u]))
    && (forall id :: id in tasks ==> TaskOk(tasks[id], id) && tasks[id].user in positions)
    && (forall id: PosId :: id in tasks <==> id.marketId in markets && id.nonce < markets[id.marketId].nextNonce)
  }

  /** The counters of a market are the sums over the positions of all users. */
  ghost predicate BooksOk(mk: Market, m: MarketId, positions: map<Pubkey, seq<Position>>) {
    && mk.marketId == m
    && mk.openCollateral == Sum(Measured(positions, m, CollateralOf))
    && mk.activePositions == Sum(Measured(positions, m, CountOf))
  }

  ghost predicate Books(markets: map<MarketId, Market>, positions: map<Pubkey, seq<Position>>) {
    forall m :: m in markets ==> BooksOk(markets[m], m, positions)
  }

  // ----- risk

  ghost predicate RiskOk(mk: Market, pool: nat, positions: map<Pubkey, seq<Position>>) {
    && pool >= 6 * mk.openCollateral
    && mk.activePositions <= MAX_ACTIVE_POSITIONS
    && (mk.activePositions > 0 ==>
        && MIN_MARKET_EQUITY <= mk.riskEpochEquity <= MAX_MARKET_EQUITY
        && forall u :: u in positions ==> Total(positions[u], mk.marketId, CollateralOf) * 100 <= mk.riskEpochEquity)
  }

  ghost predicate Risk(s: State) {
    forall m :: m in s.markets ==> RiskOk(s.markets[m], s.Balance(Pool(m)), s.positions)
  }

  // ----- liquidity

  ghost predicate EntriesOk(ls: seq<LiquidityEntry>) {
    && |ls| <= USER_LIQUIDITY_MARKET_CAPACITY
    && (forall i, j :: 0 <= i < j < |ls| ==> ls[i].marketId != ls[j].marketId)
    && (forall i :: 0 <= i < |ls| ==> ls[i].shares > 0 && ls[i].pending <= ls[i].shares)
  }

  ghost predicate Shares(markets: map<MarketId, Market>, liquidity: map<Pubkey, seq<LiquidityEntry>>) {
    && (forall u :: u in liquidity ==> EntriesOk(liquidity[u]))
    && (forall u, e :: u in liquidity && e in liquidity[u] ==> e.marketId in markets)
    && (forall m :: m in markets ==> markets[m].totalShares == Sum(Holdings(liquidity, m)))
  }

  // ----- tokens

  ghost function Supply(tokens: map<TokenKey, u64>): nat {
    Sum(map k | k in tokens :: tokens[k] as nat)
  }

  // ----- the event log

  function CreatedCount(log: seq<Event>, id: PosId): nat {
    if log == [] then 0
    else
      var e := log[|log| - 1];
      CreatedCount(log[..|log| - 1], id) + if e.PositionCreated? && e.id == id then 1 else 0
  }

  function ClosedCount(log: seq<Event>, id: PosId): nat {
    if log == [] then 0
    else
      var e := log[|log| - 1];
      ClosedCount(log[..|log| - 1], id) + if e.PositionClosed? && e.id == id then 1 else 0
  }

  /** The shares a user has in a market according to the events alone. */
  function NetShares(log: seq<Event>, u: Pubkey, m: MarketId): int {
    if log == [] then 0
    else
      var before := NetShares(log[..|log| - 1], u, m);
      match log[|log| - 1]
      case LiquidityDeposited(m', u', _, shares) => if u == u' && m == m' then before + shares else before
      case WithdrawalExecuted(m', u', shares, _) => if u == u' && m == m' then before - shares else before
      case _ => before
  }

  function CreationEvent(t: Task): Event {
    PositionCreated(t.created.Id(), t.user, t.created.entryPrice, t.created.collateral, t.created.direction,
                    t.created.expiresAt)
  }

  /** Each task has one creation event, saying what was opened, and one close event exactly once
      its position is gone; a position still listed has fired at most twenty ticks. */
  ghost predicate Journal(s: State) {
    && (forall i :: 0 <= i < |s.log| && s.log[i].PositionCreated? ==>
          s.log[i].id in s.tasks && s.log[i] == CreationEvent(s.tasks[s.log[i].id]))
    && (forall id :: CreatedCount(s.log, id) == if id in s.tasks then 1 else 0)
    && (forall id :: ClosedCount(s.log, id) == if id in s.tasks && !Live(s, id) then 1 else 0)
    && (forall id :: Live(s, id) ==> s.tasks[id].fired <= 20)
  }

  ghost predicate History(log: seq<Event>, liquidity: map<Pubkey, seq<LiquidityEntry>>) {
    && (forall u, m: MarketId :: NetShares(log, u, m) == if u in liquidity then SharesIn(liquidity[u], m) else 0)
  }

  ghost predicate Inv(s: State) {
    && Custody(s.markets, s.positions, s.tasks)
    && Books(s.markets, s.positions)
    && Risk(s)
    && Shares(s.markets, s.liquidity)
    && Supply(s.tokens) <= U64_MAX
    && Journal(s)
    && History(s.log, s.liquidity)
  }

  // ----- small consequences

  lemma MeasuredUpdate(
    positions: map<Pubkey, seq<Position>>, u: Pubkey, ps: seq<Position>, m: MarketId, measure: Measure)
    requires u in positions
    ensures Sum(Measured(positions[u := ps], m, measure))
         == Sum(Measured(positions, m, measure)) - Total(positions[u], m, measure) + Total(ps, m, measure)
    ensures Total(positions[u], m, measure) <= Sum(Measured(positions, m, measure))
  {
    SumUpdate(Measured(positions, m, measure), u, Total(ps, m, measure));
    assert Measured(positions[u := ps], m, measure) == Measured(positions, m, measure)[u := Total(ps, m, measure)];
  }

  lemma HoldingsUpdate(liquidity: map<Pubkey, seq<LiquidityEntry>>, u: Pubkey, ls: seq<LiquidityEntry>, m: MarketId)
    requires u in liquidity
    ensures Sum(Holdings(liquidity[u := ls], m))
        == Sum(Holdings(liquidity, m)) - SharesIn(liquidity[u], m) + SharesIn(ls, m)
    ensures SharesIn(liquidity[u], m) <= Sum(Holdings(liquidity, m))
  {
    SumUpdate(Holdings(liquidity, m), u, SharesIn(ls, m));
    assert Holdings(liquidity[u := ls], m) == Holdings(liquidity, m)[u := SharesIn(ls, m)];
  }

  ghost function Nats(tokens: map<TokenKey, u64>): map<TokenKey, nat> {
    map k | k in tokens :: tokens[k] as nat
  }

  /** Two accounts together never hold more than the supply, so no transfer overflows. */
  lemma PairWithinSupply(tokens: map<TokenKey, u64>, a: TokenKey, b: TokenKey)
    requires a != b
    ensures (if a in tokens then tokens[a] else 0) + (if b in tokens then tokens[b] else 0) <= Supply(tokens)
  {
    SumPair(Nats(tokens), a, b);
  }

  lemma SupplyUpdate(tokens: map<TokenKey, u64>, k: TokenKey, v: u64)
    ensures Supply(tokens[k := v]) == Supply(tokens) - (if k in tokens then tokens[k] else 0) + v
  {
    SumUpdate(Nats(tokens), k, v);
    assert Nats(tokens[k := v]) == Nats(tokens)[k := v as nat];
  }

  lemma SupplyOfOne(k: TokenKey, v: u64)
    ensures Supply(map[k := v]) == v
  {
    hide Sum;
    var none: map<TokenKey, u64> := map[];
    SupplyUpdate(none, k, v);
    assert none[k := v] == map[k := v];
    SumOfZeros(Nats(none));
    assert Supply(none) == Sum(Nats(none));
  }

  /** A market without active positions has none in any list, and no collateral. */
  lemma NoActiveNoCollateral(s: State, m: MarketId, u: Pubkey)
    requires Books(s.markets, s.positions) && m in s.markets && s.markets[m].activePositions == 0 && u in s.positions
    ensures Total(s.positions[u], m, CollateralOf) == 0
  {
    MeasuredUpdate(s.positions, u, [], m, CountOf);
    TotalZero(s.positions[u], m);
  }

  lemma CountsPush(log: seq<Event>, e: Event)
    ensures forall id :: CreatedCount(log + [e], id)
                      == CreatedCount(log, id) + if e.PositionCreated? && e.id == id then 1 else 0
    ensures forall id :: ClosedCount(log + [e], id)
                      == ClosedCount(log, id) + if e.PositionClosed? && e.id == id then 1 else 0
  {
    assert (log + [e])[..|log|] == log;
  }

  lemma NetSharesPush(log: seq<Event>, e: Event, u: Pubkey, m: MarketId)
    ensures NetShares(log + [e], u, m) == NetShares(log, u, m)
      + (if e.LiquidityDeposited? && e.user == u && e.marketId == m then e.shares
         else if e.WithdrawalExecuted? && e.user == u && e.marketId == m then -(e.shares as int)
         else 0)
  {
    assert (log + [e])[..|log|] == log;
  }
}
