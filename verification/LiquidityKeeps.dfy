/** Deposits, withdrawals, administration and transfers keep every invariant. */
module LiquidityKeeps {
  import opened Rust
  import opened Protocol
  import opened MarketMath
  import opened Lists
  import opened Instructions
  import opened InstructionFacts
  import opened MapSums
  import opened Chain
  import opened Invariants

  // ----- the entry lists

  lemma SharesAfterUpdate(ls: seq<LiquidityEntry>, i: nat, e: LiquidityEntry, m: MarketId)
    requires i < |ls| && e.marketId == ls[i].marketId
        && (forall a, b :: 0 <= a < b < |ls| ==> ls[a].marketId != ls[b].marketId)
    ensures SharesIn(ls[i := e], m) == if m == e.marketId then e.shares else SharesIn(ls, m)
  {
    var found, found' := EntryIndex(ls, m), EntryIndex(ls[i := e], m);
    assert ls[i := e][i] == e;
    if found.Some? {
      assert ls[i := e][found.value].marketId == m;
    }
    if found'.Some? {
      assert ls[found'.value].marketId == m;
    }
  }

  lemma SharesAfterPush(ls: seq<LiquidityEntry>, m: MarketId, m': MarketId)
    requires EntryIndex(ls, m).None?
    ensures SharesIn(ls + [LiquidityEntry(m, 0, 0, 0)], m') == SharesIn(ls, m')
  {
    var ext := ls + [LiquidityEntry(m, 0, 0, 0)];
    var found, found' := EntryIndex(ls, m'), EntryIndex(ext, m');
    assert ext[|ls|].marketId == m;
    if found.Some? {
      assert ext[found.value].marketId == m';
    }
    if found'.Some? && found'.value < |ls| {
      assert ls[found'.value].marketId == m';
    }
  }

  lemma SharesAfterRemove(ls: seq<LiquidityEntry>, i: nat, m: MarketId)
    requires i < |ls| && ls[i].shares == 0 && (forall a, b :: 0 <= a < b < |ls| ==> ls[a].marketId != ls[b].marketId)
    ensures SharesIn(SwapRemove(ls, i), m) == SharesIn(ls, m)
    ensures forall a, b :: 0 <= a < b < |ls| - 1 ==> SwapRemove(ls, i)[a].marketId != SwapRemove(ls, i)[b].marketId
    ensures forall e :: e in SwapRemove(ls, i) ==> e in ls && e.marketId != ls[i].marketId
  {
    var rest := SwapRemove(ls, i);
    var last := |ls| - 1;
    assert forall k :: 0 <= k < last ==> rest[k] == ls[if k == i then last else k];
    var found, found' := EntryIndex(ls, m), EntryIndex(rest, m);
    if found.Some? && found.value != i {
      assert rest[if found.value == last then i else found.value] == ls[found.value];
    }
    if found'.Some? {
      assert rest[found'.value] == ls[if found'.value == i then last else found'.value];
    }
  }

  /** A deposit adds exactly the minted shares to the user's entry and to no other. */
  lemma DepositEntries(ls: seq<LiquidityEntry>, m: MarketId, shares: nat, e: LiquidityEntry)
    requires EntriesOk(ls) && MarketOrInsert(ls, m).Ok? && shares > 0
    requires var (base, i) := MarketOrInsert(ls, m).value;
             e == base[i].(shares := e.shares) && e.shares == base[i].shares + shares
    ensures var (base, i) := MarketOrInsert(ls, m).value;
            && EntriesOk(base[i := e])
            && (forall m' :: SharesIn(base[i := e], m') == SharesIn(ls, m') + if m' == m then shares else 0)
            && (forall x :: x in base[i := e] ==> x.marketId == m || x in ls)
  {
    var (base, i) := MarketOrInsert(ls, m).value;
    forall m': MarketId
      ensures SharesIn(base[i := e], m') == SharesIn(ls, m') + if m' == m then shares else 0
    {
      SharesAfterUpdate(base, i, e, m');
      if EntryIndex(ls, m).None? {
        SharesAfterPush(ls, m, m');
      }
    }
  }

  /** An executed withdrawal removes exactly the redeemed shares, and the entry when none is left. */
  lemma WithdrawEntries(ls: seq<LiquidityEntry>, m: MarketId, i: nat, left: u128)
    requires EntriesOk(ls) && i < |ls| && ls[i].marketId == m
    ensures var after := RemoveEmptyMarket(ls[i := LiquidityEntry(m, left, 0, 0)], m);
            && EntriesOk(after)
            && (forall m' :: SharesIn(after, m') == if m' == m then left else SharesIn(ls, m'))
            && (forall x :: x in after ==> x.marketId == m || x in ls)
  {
    var updated := ls[i := LiquidityEntry(m, left, 0, 0)];
    var empty := EmptyEntryIndex(updated, m);
    assert updated[i] == LiquidityEntry(m, left, 0, 0);
    forall m': MarketId
      ensures SharesIn(RemoveEmptyMarket(updated, m), m') == if m' == m then left else SharesIn(ls, m')
    {
      SharesAfterUpdate(ls, i, LiquidityEntry(m, left, 0, 0), m');
      if empty.Some? {
        SharesAfterRemove(updated, empty.value, m');
      }
    }
    if empty.Some? {
      assert empty.value == i;
      SharesAfterRemove(updated, i, m);
      var after := SwapRemove(updated, i);
      forall k | 0 <= k < |after|
        ensures after[k].shares > 0 && after[k].pending <= after[k].shares
      {
        assert after[k] in updated;
      }
    }
  }

  // ----- the state after a liquidity instruction

  /** A market without risk gains or loses shares and pool tokens; one entry list changes. */
  ghost predicate Rebalanced(
    s: State, m: MarketId, u: Pubkey, ls: seq<LiquidityEntry>, shares: int, e: Event, s': State)
  {
    && m in s.markets && u in s.liquidity && s.markets[m].IsNoRisk()
    && EntriesOk(ls) && (forall x :: x in ls ==> x.marketId == m || x in s.liquidity[u])
    && (forall m': MarketId :: SharesIn(ls, m') == SharesIn(s.liquidity[u], m') + if m' == m then shares else 0)
    && 0 <= s.markets[m].totalShares + shares <= U128_MAX
    && (if shares >= 0 then e.LiquidityDeposited? && e.marketId == m && e.user == u && e.shares == shares
        else e.WithdrawalExecuted? && e.marketId == m && e.user == u && e.shares == -shares)
    && s'.markets == s.markets[m := s.markets[m].(totalShares := s.markets[m].totalShares + shares)]
    && s'.positions == s.positions && s'.tasks == s.tasks
    && s'.liquidity == s.liquidity[u := ls]
    && (forall m' :: m' != m ==> s'.Balance(Pool(m')) == s.Balance(Pool(m')))
    && s'.log == s.log + [e]
    && Supply(s'.tokens) == Supply(s.tokens)
  }

  lemma TwoTransfers(tokens: map<TokenKey, u64>, a: TokenKey, b: TokenKey, x: u64, y: u64)
    requires a != b
    requires x as int + y == (if a in tokens then tokens[a] as int else 0) + (if b in tokens then tokens[b] else 0)
    ensures Supply(tokens[a := x][b := y]) == Supply(tokens)
  {
    SupplyUpdate(tokens, a, x);
    SupplyUpdate(tokens[a := x], b, y);
  }

  lemma DepositRebalances(s: State, m: MarketId, u: Pubkey, wallet: nat, amount: u64, minSharesOut: u128, s': State)
    returns (ls: seq<LiquidityEntry>, shares: nat, e: Event)
    requires Books(s.markets, s.positions) && Shares(s.markets, s.liquidity)
        && ExecDeposit(s, m, u, wallet, amount, minSharesOut) == Ok(s')
    ensures Rebalanced(s, m, u, ls, shares, e, s')
  {
    hide DepositLiquidity, SharesIn, Sum, Holdings, Measured, Supply, MarketOrInsert, SharesForDeposit;
    var mk, ls0, pool, balance := s.markets[m], s.liquidity[u], s.Balance(Pool(m)), s.Balance(Wallet(wallet));
    assert BooksOk(mk, m, s.positions);
    DepositFacts(mk, ls0, pool, balance, u, amount, minSharesOut);
    var effect := DepositLiquidity(mk, ls0, pool, balance, u, amount, minSharesOut).value;
    ls, e := effect.entries, effect.event;
    shares := e.shares;
    var i := MarketOrInsert(ls0, m).value.1;
    DepositEntries(ls0, m, shares, ls[i]);
    TwoTransfers(s.tokens, Wallet(wallet), Pool(m), effect.wallet, effect.pool);
  }

  lemma WithdrawnEntries(mk: Market, ls: seq<LiquidityEntry>, pool: u64, wallet: u64, u: Pubkey) returns (delta: int)
    requires EntriesOk(ls) && ExecuteWithdrawal(mk, ls, pool, wallet, u).Ok?
    ensures var e := ExecuteWithdrawal(mk, ls, pool, wallet, u).value;
            && EntriesOk(e.entries) && (forall x :: x in e.entries ==> x.marketId == mk.marketId || x in ls)
            && delta < 0 <= mk.totalShares + delta
            && (forall m: MarketId :: SharesIn(e.entries, m) == SharesIn(ls, m) + if m == mk.marketId then delta else 0)
            && mk.IsNoRisk() && e.market == mk.(totalShares := mk.totalShares + delta)
            && e.pool as int + e.wallet == pool as int + wallet
            && e.event.WithdrawalExecuted? && e.event.marketId == mk.marketId && e.event.user == u
            && e.event.shares == -delta
  {
    hide ExecuteWithdrawal, RemoveEmptyMarket, AssetsForShares;
    WithdrawFacts(mk, ls, pool, wallet, u);
    var i := EntryIndex(ls, mk.marketId).value;
    delta := 0 - ls[i].pending as int;
    WithdrawEntries(ls, mk.marketId, i, ls[i].shares - ls[i].pending);
  }

  lemma WithdrawRebalances(s: State, m: MarketId, u: Pubkey, wallet: nat, s': State)
    returns (ls: seq<LiquidityEntry>, delta: int, e: Event)
    requires Books(s.markets, s.positions) && Shares(s.markets, s.liquidity) && ExecWithdraw(s, m, u, wallet) == Ok(s')
    ensures delta < 0 && Rebalanced(s, m, u, ls, delta, e, s')
  {
    hide ExecuteWithdrawal, Sum, Holdings, Measured, Supply, SharesIn, EntriesOk;
    var mk, ls0, pool, balance := s.markets[m], s.liquidity[u], s.Balance(Pool(m)), s.Balance(Wallet(wallet));
    assert BooksOk(mk, m, s.positions);
    delta := WithdrawnEntries(mk, ls0, pool, balance, u);
    var effect := ExecuteWithdrawal(mk, ls0, pool, balance, u).value;
    ls, e := effect.entries, effect.event;
    TwoTransfers(s.tokens, Pool(m), Wallet(wallet), effect.pool, effect.wallet);
  }

  lemma RebalanceKeepsShares(
    s: State, m: MarketId, u: Pubkey, ls: seq<LiquidityEntry>, shares: int, e: Event, s': State)
    requires Shares(s.markets, s.liquidity) && Rebalanced(s, m, u, ls, shares, e, s')
    ensures Shares(s'.markets, s'.liquidity)
  {
    hide Sum, Holdings, SharesIn, Supply, EntriesOk;
    forall m' | m' in s'.markets
      ensures s'.markets[m'].totalShares == Sum(Holdings(s'.liquidity, m'))
    {
      HoldingsUpdate(s.liquidity, u, ls, m');
    }
  }

  lemma RebalanceKeepsHistory(
    s: State, m: MarketId, u: Pubkey, ls: seq<LiquidityEntry>, shares: int, e: Event, s': State)
    requires History(s.log, s.liquidity) && Rebalanced(s, m, u, ls, shares, e, s')
    ensures History(s'.log, s'.liquidity)
  {
    hide SharesIn, Supply, EntriesOk, NetShares;
    forall u', m': MarketId
      ensures NetShares(s'.log, u', m') == NetShares(s.log, u', m') + if u' == u && m' == m then shares else 0
    {
      NetSharesPush(s.log, e, u', m');
    }
  }

  // ----- frames: what each invariant does not depend on

  ghost predicate SameRisk(ms: map<MarketId, Market>, ms': map<MarketId, Market>) {
    && ms.Keys == ms'.Keys
    && forall m :: m in ms ==>
         && ms[m].marketId == ms'[m].marketId && ms[m].openCollateral == ms'[m].openCollateral
         && ms[m].activePositions == ms'[m].activePositions && ms[m].riskEpochEquity == ms'[m].riskEpochEquity
         && ms[m].nextNonce == ms'[m].nextNonce
  }

  lemma RiskFrame(s: State, s': State)
    requires Books(s.markets, s.positions) && Risk(s) && Custody(s.markets, s.positions, s.tasks)
    requires SameRisk(s.markets, s'.markets) && s'.positions == s.positions && s'.tasks == s.tasks
    requires forall m: MarketId ::
               s'.Balance(Pool(m)) >= s.Balance(Pool(m)) || (m in s.markets && s.markets[m].openCollateral == 0)
    ensures Books(s'.markets, s'.positions) && Risk(s') && Custody(s'.markets, s'.positions, s'.tasks)
  {
    hide Sum, Measured, Total, ListOk, TaskOk;
    forall m | m in s'.markets
      ensures BooksOk(s'.markets[m], m, s'.positions) && RiskOk(s'.markets[m], s'.Balance(Pool(m)), s'.positions)
    {
      assert BooksOk(s.markets[m], m, s.positions) && RiskOk(s.markets[m], s.Balance(Pool(m)), s.positions);
    }
  }

  ghost predicate Quiet(e: Event) {
    !e.PositionCreated? && !e.PositionClosed?
  }

  lemma JournalFrame(s: State, s': State)
    requires Journal(s) && s'.tasks == s.tasks && s'.log == s.log
    requires forall id: PosId :: Live(s', id) == Live(s, id)
    ensures Journal(s')
  {
    hide Live;
  }

  lemma LiveFrame(s: State, s': State)
    requires s'.tasks == s.tasks && s'.positions == s.positions
    ensures forall id: PosId :: Live(s', id) == Live(s, id)
  {
    hide PositionIndex;
  }

  lemma QuietKeepsJournal(s: State, e: Event, s': State)
    requires Journal(s) && s'.log == s.log + [e] && Quiet(e)
    requires s'.tasks == s.tasks && s'.positions == s.positions
    ensures Journal(s')
  {
    LiveFrame(s, s');
    hide Live;
    CountsPush(s.log, e);
  }

  lemma QuietKeepsHistory(log: seq<Event>, e: Event, liquidity: map<Pubkey, seq<LiquidityEntry>>)
    requires History(log, liquidity) && !e.LiquidityDeposited? && !e.WithdrawalExecuted?
    ensures History(log + [e], liquidity)
  {
    hide NetShares, SharesIn;
    forall u, m: MarketId
      ensures NetShares(log + [e], u, m) == NetShares(log, u, m)
    {
      NetSharesPush(log, e, u, m);
    }
  }

  lemma RebalanceKeepsInv(s: State, m: MarketId, u: Pubkey, ls: seq<LiquidityEntry>, shares: int, e: Event, s': State)
    requires Inv(s) && Rebalanced(s, m, u, ls, shares, e, s')
    ensures Inv(s') && Supply(s'.tokens) == Supply(s.tokens)
  {
    hide Books, Risk, Custody, Shares, History, Journal, Supply, SharesIn, EntriesOk;
    RebalanceKeepsShares(s, m, u, ls, shares, e, s');
    RebalanceKeepsHistory(s, m, u, ls, shares, e, s');
    RiskFrame(s, s');
    QuietKeepsJournal(s, e, s');
  }

  // ----- requests and cancellations

  /** Only the pending amount of one entry changes. */
  lemma PendingKeepsInv(s: State, u: Pubkey, i: nat, x: LiquidityEntry, e: Event, s': State)
    requires Inv(s) && u in s.liquidity && i < |s.liquidity[u]|
    requires x.marketId == s.liquidity[u][i].marketId && x.shares == s.liquidity[u][i].shares && x.pending <= x.shares
    requires e.WithdrawalRequested? || e.WithdrawalCancelled?
    requires s' == s.(liquidity := s.liquidity[u := s.liquidity[u][i := x]], log := s.log + [e])
    ensures Inv(s')
  {
    hide Books, Custody, Risk, Shares, Journal, History, Supply, SharesIn, EntriesOk;
    PendingSameShares(s, u, i, x);
    PendingKeepsShares(s, u, i, x, s');
    RiskFrame(s, s');
    QuietKeepsJournal(s, e, s');
    QuietKeepsHistory(s.log, e, s.liquidity);
    SameHistory(s, u, s.liquidity[u][i := x], s'.log);
  }

  lemma PendingSameShares(s: State, u: Pubkey, i: nat, x: LiquidityEntry)
    requires Shares(s.markets, s.liquidity) && u in s.liquidity && i < |s.liquidity[u]|
    requires x.marketId == s.liquidity[u][i].marketId && x.shares == s.liquidity[u][i].shares && x.pending <= x.shares
    ensures EntriesOk(s.liquidity[u][i := x])
    ensures forall m: MarketId :: SharesIn(s.liquidity[u][i := x], m) == SharesIn(s.liquidity[u], m)
  {
    hide Holdings, Sum, SharesIn;
    var ls := s.liquidity[u];
    assert EntriesOk(ls);
    forall m: MarketId
      ensures SharesIn(ls[i := x], m) == SharesIn(ls, m)
    {
      SharesAfterUpdate(ls, i, x, m);
      SharesAfterUpdate(ls, i, ls[i], m);
      assert ls[i := ls[i]] == ls;
    }
  }

  lemma SameHistory(s: State, u: Pubkey, ls: seq<LiquidityEntry>, log: seq<Event>)
    requires u in s.liquidity && History(log, s.liquidity)
    requires forall m: MarketId :: SharesIn(ls, m) == SharesIn(s.liquidity[u], m)
    ensures History(log, s.liquidity[u := ls])
  {
    hide SharesIn, NetShares;
  }

  lemma PendingKeepsShares(s: State, u: Pubkey, i: nat, x: LiquidityEntry, s': State)
    requires Shares(s.markets, s.liquidity) && u in s.liquidity && i < |s.liquidity[u]|
    requires x.marketId == s.liquidity[u][i].marketId && EntriesOk(s.liquidity[u][i := x])
    requires forall m: MarketId :: SharesIn(s.liquidity[u][i := x], m) == SharesIn(s.liquidity[u], m)
    requires s'.markets == s.markets && s'.liquidity == s.liquidity[u := s.liquidity[u][i := x]]
    ensures Shares(s'.markets, s'.liquidity)
  {
    hide EntriesOk, Sum, Holdings, SharesIn;
    assert s.liquidity[u][i] in s.liquidity[u];
    forall m | m in s.markets
      ensures s.markets[m].totalShares == Sum(Holdings(s'.liquidity, m))
    {
      HoldingsUpdate(s.liquidity, u, s.liquidity[u][i := x], m);
    }
  }

  // ----- everything else

  lemma TransferKeeps(s: State, from: TokenKey, to: TokenKey, amount: u64, s': State)
    requires Inv(s) && Transfer(s, from, to, amount) == Ok(s') && !from.Pool?
    ensures Inv(s') && Supply(s'.tokens) == Supply(s.tokens)
    ensures s' == s.(tokens := s'.tokens) && forall m :: s'.Balance(Pool(m)) >= s.Balance(Pool(m))
  {
    if from != to {
      hide Books, Risk, Custody, Shares, History, Journal, Supply;
      TwoTransfers(s.tokens, from, to, s'.tokens[from], s'.tokens[to]);
      RiskFrame(s, s');
      LiveFrame(s, s');
      JournalFrame(s, s');
    }
  }

  lemma QuietKeepsInv(s: State, e: Event)
    requires Inv(s) && Quiet(e) && !e.LiquidityDeposited? && !e.WithdrawalExecuted?
    ensures Inv(Emit(s, e))
  {
    hide Books, Risk, Custody, Shares, History, Journal, Supply;
    RiskFrame(s, Emit(s, e));
    QuietKeepsJournal(s, e, Emit(s, e));
    QuietKeepsHistory(s.log, e, s.liquidity);
  }

  lemma SharesFrame(ms: map<MarketId, Market>, ms': map<MarketId, Market>, liquidity: map<Pubkey, seq<LiquidityEntry>>)
    requires Shares(ms, liquidity) && ms.Keys == ms'.Keys
    requires forall m :: m in ms ==> ms'[m].totalShares == ms[m].totalShares
    ensures Shares(ms', liquidity)
  {
    hide EntriesOk, Holdings, Sum;
  }

  lemma ModeChangesNothingElse(ms: map<MarketId, Market>, m: MarketId, mode: MarketMode)
    requires m in ms
    ensures SameRisk(ms, ms[m := ms[m].(mode := mode)])
    ensures ms.Keys == ms[m := ms[m].(mode := mode)].Keys
    ensures forall k :: k in ms ==> ms[m := ms[m].(mode := mode)][k].totalShares == ms[k].totalShares
  {
  }

  lemma SetModeKeepsInv(s: State, m: MarketId, mode: MarketMode)
    requires Inv(s) && m in s.markets
    ensures Inv(s.(markets := s.markets[m := s.markets[m].(mode := mode)]))
  {
    hide Books, Risk, Custody, Shares, History, Journal, Supply, Live, SameRisk;
    var s' := s.(markets := s.markets[m := s.markets[m].(mode := mode)]);
    ModeChangesNothingElse(s.markets, m, mode);
    RiskFrame(s, s');
    SharesFrame(s.markets, s'.markets, s.liquidity);
    LiveFrame(s, s');
    JournalFrame(s, s');
  }

  lemma {:induction false} TotalElsewhere(ps: seq<Position>, m: MarketId)
    requires forall p :: p in ps ==> p.marketId != m
    ensures Total(ps, m, CollateralOf) == 0 && Total(ps, m, CountOf) == 0
  {
    if ps != [] {
      TotalElsewhere(ps[..|ps| - 1], m);
    }
  }

  /** No list mentions a market that does not exist. */
  lemma NothingInNewMarket(s: State, m: MarketId)
    requires Custody(s.markets, s.positions, s.tasks) && Shares(s.markets, s.liquidity) && m !in s.markets
    ensures Sum(Measured(s.positions, m, CollateralOf)) == 0 && Sum(Measured(s.positions, m, CountOf)) == 0
    ensures Sum(Holdings(s.liquidity, m)) == 0
  {
    hide Sum;
    forall u | u in s.positions
      ensures Total(s.positions[u], m, CollateralOf) == 0 && Total(s.positions[u], m, CountOf) == 0
    {
      assert ListOk(s.tasks, u, s.positions[u]);
      assert forall p :: p in s.positions[u] ==> Backed(s.tasks, u, p);
      TotalElsewhere(s.positions[u], m);
    }
    forall u | u in s.liquidity
      ensures SharesIn(s.liquidity[u], m) == 0
    {
      assert forall j :: 0 <= j < |s.liquidity[u]| ==> s.liquidity[u][j] in s.liquidity[u];
    }
    SumOfZeros(Measured(s.positions, m, CollateralOf));
    SumOfZeros(Measured(s.positions, m, CountOf));
    SumOfZeros(Holdings(s.liquidity, m));
  }

  lemma NewMarketRisk(s: State, m: MarketId, mk: Market, s': State)
    requires Custody(s.markets, s.positions, s.tasks) && Books(s.markets, s.positions) && Risk(s) && m !in s.markets
    requires mk.marketId == m && mk.IsNoRisk() && mk.nextNonce == 0 && s' == s.(markets := s.markets[m := mk])
    requires Sum(Measured(s.positions, m, CollateralOf)) == 0 && Sum(Measured(s.positions, m, CountOf)) == 0
    ensures Custody(s'.markets, s'.positions, s'.tasks) && Books(s'.markets, s'.positions) && Risk(s')
  {
    hide Sum, Measured, ListOk, TaskOk, Total;
    forall m' | m' in s'.markets
      ensures BooksOk(s'.markets[m'], m', s'.positions) && RiskOk(s'.markets[m'], s'.Balance(Pool(m')), s'.positions)
    {
      assert m' != m ==>
          BooksOk(s.markets[m'], m', s.positions) && RiskOk(s.markets[m'], s.Balance(Pool(m')), s.positions);
    }
  }

  lemma NewMarketShares(s: State, m: MarketId, mk: Market)
    requires Shares(s.markets, s.liquidity) && mk.totalShares == 0 && Sum(Holdings(s.liquidity, m)) == 0
    ensures Shares(s.markets[m := mk], s.liquidity)
  {
    hide Sum, Holdings, EntriesOk;
  }

  lemma InitMarketKeepsInv(s: State, m: MarketId, feedId: nat)
    requires Inv(s) && m !in s.markets
    ensures Inv(s.(markets := s.markets[m := Market(m, feedId, 0, 0, 0, 0, 0, Open)]))
  {
    var mk := Market(m, feedId, 0, 0, 0, 0, 0, Open);
    var s' := s.(markets := s.markets[m := mk]);
    hide Books, Risk, Custody, Shares, History, Journal, Supply, Sum, Measured, Holdings;
    NothingInNewMarket(s, m);
    NewMarketRisk(s, m, mk, s');
    NewMarketShares(s, m, mk);
    LiveFrame(s, s');
    JournalFrame(s, s');
  }

  lemma MeasuredExtend(positions: map<Pubkey, seq<Position>>, u: Pubkey, m: MarketId, measure: Measure)
    requires u !in positions
    ensures Sum(Measured(positions[u := []], m, measure)) == Sum(Measured(positions, m, measure))
  {
    SumUpdate(Measured(positions, m, measure), u, 0);
    assert Measured(positions[u := []], m, measure) == Measured(positions, m, measure)[u := 0];
  }

  lemma HoldingsExtend(liquidity: map<Pubkey, seq<LiquidityEntry>>, u: Pubkey, m: MarketId)
    requires u !in liquidity
    ensures Sum(Holdings(liquidity[u := []], m)) == Sum(Holdings(liquidity, m))
  {
    SumUpdate(Holdings(liquidity, m), u, 0);
    assert Holdings(liquidity[u := []], m) == Holdings(liquidity, m)[u := 0];
  }

  lemma NewListRisk(s: State, u: Pubkey, s': State)
    requires Custody(s.markets, s.positions, s.tasks) && Books(s.markets, s.positions) && Risk(s)
    requires u !in s.positions && s' == s.(positions := s.positions[u := []])
    ensures Custody(s'.markets, s'.positions, s'.tasks) && Books(s'.markets, s'.positions) && Risk(s')
  {
    hide Sum, TaskOk, Measured;
    forall m | m in s.markets
      ensures BooksOk(s'.markets[m], m, s'.positions) && RiskOk(s'.markets[m], s'.Balance(Pool(m)), s'.positions)
    {
      assert BooksOk(s.markets[m], m, s.positions) && RiskOk(s.markets[m], s.Balance(Pool(m)), s.positions);
      MeasuredExtend(s.positions, u, m, CollateralOf);
      MeasuredExtend(s.positions, u, m, CountOf);
    }
  }

  lemma InitPositionsKeepsInv(s: State, u: Pubkey)
    requires Inv(s) && u !in s.positions
    ensures Inv(s.(positions := s.positions[u := []]))
  {
    var s' := s.(positions := s.positions[u := []]);
    assert forall id: PosId :: Live(s', id) == Live(s, id) by {
      hide PositionIndex, ListOk, TaskOk;
    }
    hide Books, Risk, Custody, Shares, History, Journal, Supply;
    NewListRisk(s, u, s');
    JournalFrame(s, s');
  }

  lemma NewListShares(s: State, u: Pubkey)
    requires Shares(s.markets, s.liquidity) && History(s.log, s.liquidity) && u !in s.liquidity
    ensures Shares(s.markets, s.liquidity[u := []]) && History(s.log, s.liquidity[u := []])
  {
    hide Sum, NetShares, Holdings;
    forall m | m in s.markets
      ensures s.markets[m].totalShares == Sum(Holdings(s.liquidity[u := []], m))
    {
      HoldingsExtend(s.liquidity, u, m);
    }
  }

  lemma InitLiquidityKeepsInv(s: State, u: Pubkey)
    requires Inv(s) && u !in s.liquidity
    ensures Inv(s.(liquidity := s.liquidity[u := []]))
  {
    var s' := s.(liquidity := s.liquidity[u := []]);
    hide Books, Risk, Custody, Shares, History, Journal, Supply;
    NewListShares(s, u);
    RiskFrame(s, s');
    LiveFrame(s, s');
    JournalFrame(s, s');
  }
}
