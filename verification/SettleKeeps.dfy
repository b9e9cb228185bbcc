/** A successful settlement keeps every invariant, and in a reachable state it never fails for any
    reason but an unreadable oracle. */
module SettleKeeps {
  import opened Rust
  import opened Protocol
  import opened MarketMath
  import opened Lists
  import opened Instructions
  import opened InstructionFacts
  import opened MapSums
  import opened Chain
  import opened Invariants

  function Moved(
    tokens: map<TokenKey, u64>, m: MarketId, to: TokenKey, pool: u64, fee: u64, destination: u64): map<TokenKey, u64>
  {
    tokens[Pool(m) := pool][Fee(m) := fee][to := destination]
  }

  /** The state after the position at index i of its owner's list was paid as decided. */
  ghost predicate ClosedTo(s: State, id: PosId, i: nat, d: Decision, to: TokenKey, s': State) {
    && id in s.tasks && id.marketId in s.markets && s.tasks[id].user in s.positions
    && var m, ps := id.marketId, s.positions[s.tasks[id].user];
    && var mk := s.markets[m];
    && i < |ps| && ps[i].Id() == id && mk.marketId == m && d.Pay?
    && (to.Wallet? || to.Escrow?)
    && d.payout + d.protocolFee <= 6 * ps[i].collateral
    && ps[i].collateral <= mk.openCollateral && 0 < mk.activePositions
    && d.payout + d.protocolFee <= s.Balance(Pool(m))
    && s.Balance(Fee(m)) + d.protocolFee <= U64_MAX && s.Balance(to) + d.payout <= U64_MAX
    && s' == State(
         s.markets[m := mk.(openCollateral := mk.openCollateral - ps[i].collateral,
                            activePositions := mk.activePositions - 1)],
         s.positions[s.tasks[id].user := SwapRemove(ps, i)],
         s.liquidity,
         Moved(s.tokens, m, to, s.Balance(Pool(m)) - d.payout - d.protocolFee, s.Balance(Fee(m)) + d.protocolFee,
               s.Balance(to) + d.payout),
         s.tasks,
         s.log + [PositionClosed(id, d.outcome, d.payout, d.lpFee, d.protocolFee)])
  }

  /** A position found under its name is the one its task records. */
  lemma FoundIsCreated(s: State, id: PosId)
    requires Custody(s.markets, s.positions, s.tasks) && Live(s, id)
    ensures var ps := s.positions[s.tasks[id].user];
            ps[PositionIndex(ps, id).value] == s.tasks[id].created
    ensures TaskOk(s.tasks[id], id) && id.marketId in s.markets
  {
    var ps := s.positions[s.tasks[id].user];
    assert ListOk(s.tasks, s.tasks[id].user, ps);
    assert ps[PositionIndex(ps, id).value] in ps;
  }

  lemma FindsLive(s: State, id: PosId, p: Position)
    requires Custody(s.markets, s.positions, s.tasks) && id in s.tasks
    requires p in s.positions[s.tasks[id].user] && p.Id() == id
    ensures Live(s, id) && p == s.tasks[id].created
  {
    assert ListOk(s.tasks, s.tasks[id].user, s.positions[s.tasks[id].user]);
  }

  lemma MarketNamed(s: State, m: MarketId)
    requires Books(s.markets, s.positions)
    ensures m in s.markets ==> s.markets[m].marketId == m
  {
    assert m in s.markets ==> BooksOk(s.markets[m], m, s.positions);
  }

  /** What the instruction was called with, and how the new state is put together from its effect. */
  lemma SettleApplies(s: State, id: PosId, oracle: OracleAccount, usable: bool, now: i64, s': State)
    requires id in s.tasks && ExecSettle(s, id, oracle, usable, now) == Ok(s')
    ensures id.marketId in s.markets && s.tasks[id].user in s.positions
    ensures var t, m, to := s.tasks[id], id.marketId, PayoutKey(s.tasks[id], usable);
            var r := SettlePosition(s.markets[m], s.positions[t.user], s.Balance(Pool(m)), s.Balance(Fee(m)),
                                    s.Balance(to),
                                    id.nonce, t.salt, oracle, now);
            && r.Ok?
            && match r.value
               case None => s' == s
               case Some(e) =>
                 s' == State(s.markets[m := e.market], s.positions[t.user := e.positions], s.liquidity,
                             Moved(s.tokens, m, to, e.pool, e.fee, e.destination), s.tasks, s.log + [e.event])
  {
    hide SettlePosition;
  }

  /** What a paying settlement does to the accounts of one position of the state. */
  lemma SettlePays(s: State, id: PosId, oracle: OracleAccount, now: i64, destination: u64, e: SettleEffect)
    requires Custody(s.markets, s.positions, s.tasks) && Books(s.markets, s.positions) && id in s.tasks
    requires id.marketId in s.markets && s.tasks[id].user in s.positions
    requires SettlePosition(s.markets[id.marketId], s.positions[s.tasks[id].user], s.Balance(Pool(id.marketId)),
                            s.Balance(Fee(id.marketId)), destination, id.nonce, s.tasks[id].salt, oracle, now)
                                == Ok(Some(e))
    ensures Live(s, id) && PositionIndex(s.positions[s.tasks[id].user], id).Some?
    ensures var mk, p := s.markets[id.marketId], s.tasks[id].created;
            var d := Decide(p, mk.feedId, oracle, now);
            && mk.marketId == id.marketId
            && d.Ok? && d.value.Pay? && d.value.payout + d.value.protocolFee <= 6 * p.collateral
            && var ps := s.positions[s.tasks[id].user];
            && var i := PositionIndex(ps, id).value;
            && i < |ps| && ps[i] == p && p.Id() == id
            && Pays(e, mk, s.Balance(Pool(id.marketId)), s.Balance(Fee(id.marketId)), destination, p, d.value)
            && e.positions == SwapRemove(ps, i)
  {
    hide SettlePosition, SwapRemove, PositionIndex, Decide, Custody, Books, Unreadable, GivesPrice;
    MarketNamed(s, id.marketId);
    var mk, ps := s.markets[id.marketId], s.positions[s.tasks[id].user];
    SettleFacts(mk, ps, s.Balance(Pool(id.marketId)), s.Balance(Fee(id.marketId)), destination,
                id.nonce, s.tasks[id].salt, oracle, now);
    FoundIsCreated(s, id);
    PayBounded(s.tasks[id].created, mk.feedId, oracle, now);
  }

  /** The counters drop by the position, the pool pays both amounts, and the event says so. */
  predicate Pays(e: SettleEffect, mk: Market, pool: u64, fee: u64, destination: u64, p: Position, d: Decision)
    requires d.Pay?
  {
    && e.market == mk.(openCollateral := e.market.openCollateral, activePositions := e.market.activePositions)
    && e.market.openCollateral == mk.openCollateral - p.collateral
    && e.market.activePositions == mk.activePositions - 1
    && e.pool == pool - d.payout - d.protocolFee
    && e.fee == fee + d.protocolFee && e.destination == destination + d.payout
    && e.event == PositionClosed(p.Id(), d.outcome, d.payout, d.lpFee, d.protocolFee)
  }

  lemma PaysCloses(s: State, id: PosId, i: nat, d: Decision, to: TokenKey, e: SettleEffect, s': State)
    requires id in s.tasks && id.marketId in s.markets && s.tasks[id].user in s.positions && d.Pay?
    requires i < |s.positions[s.tasks[id].user]| && s.positions[s.tasks[id].user][i].Id() == id
    requires var m, p := id.marketId, s.positions[s.tasks[id].user][i];
             && s.markets[m].marketId == m && d.payout + d.protocolFee <= 6 * p.collateral
             && Pays(e, s.markets[m], s.Balance(Pool(m)), s.Balance(Fee(m)), s.Balance(to), p, d)
             && e.positions == SwapRemove(s.positions[s.tasks[id].user], i)
             && s' == State(s.markets[m := e.market], s.positions[s.tasks[id].user := e.positions], s.liquidity,
                            Moved(s.tokens, m, to, e.pool, e.fee, e.destination), s.tasks, s.log + [e.event])
    requires to.Wallet? || to.Escrow?
    ensures ClosedTo(s, id, i, d, to, s')
  {
    hide SwapRemove, Moved;
  }

  /** Where a successful settlement instruction leads. */
  lemma SettleEffectOnState(s: State, id: PosId, oracle: OracleAccount, usable: bool, now: i64, s': State)
    requires Custody(s.markets, s.positions, s.tasks) && Books(s.markets, s.positions) && id in s.tasks
    requires ExecSettle(s, id, oracle, usable, now) == Ok(s')
    ensures s' == s || Live(s, id)
    ensures s' != s ==>
              var d := Decide(s.tasks[id].created, s.markets[id.marketId].feedId, oracle, now);
              && d.Ok? && d.value.Pay?
              && ClosedTo(s, id, PositionIndex(s.positions[s.tasks[id].user], id).value, d.value,
                          PayoutKey(s.tasks[id], usable), s')
  {
    hide SettlePosition, SwapRemove, PositionIndex, Decide, Custody, Books, Unreadable, GivesPrice, ExecSettle, Moved,
        Live,
         Pays, ClosedTo;
    SettleApplies(s, id, oracle, usable, now, s');
    var m, t, to := id.marketId, s.tasks[id], PayoutKey(s.tasks[id], usable);
    var r := SettlePosition(s.markets[m], s.positions[t.user], s.Balance(Pool(m)), s.Balance(Fee(m)), s.Balance(to),
                            id.nonce, t.salt, oracle, now);
    if r.value.Some? {
      SettlePays(s, id, oracle, now, s.Balance(to), r.value.value);
      var d := Decide(t.created, s.markets[m].feedId, oracle, now).value;
      PaysCloses(s, id, PositionIndex(s.positions[t.user], id).value, d, to, r.value.value, s');
    }
  }

  lemma CloseKeepsCustody(s: State, id: PosId, i: nat, d: Decision, to: TokenKey, s': State)
    requires Custody(s.markets, s.positions, s.tasks) && ClosedTo(s, id, i, d, to, s')
    ensures Custody(s'.markets, s'.positions, s'.tasks)
  {
    var user := s.tasks[id].user;
    var ps := s.positions[user];
    assert ListOk(s.tasks, user, ps);
    SwapRemoveMembers(ps, i);
    hide SwapRemove, Moved, TaskOk, Backed;
    forall u | u in s'.positions
      ensures ListOk(s'.tasks, u, s'.positions[u])
    {
      assert ListOk(s.tasks, u, s.positions[u]);
    }
  }

  lemma CloseKeepsBooks(s: State, id: PosId, i: nat, d: Decision, to: TokenKey, s': State)
    requires Books(s.markets, s.positions) && ClosedTo(s, id, i, d, to, s')
    ensures Books(s'.markets, s'.positions)
  {
    hide Total, Sum, Measured, SwapRemove, Moved;
    var user := s.tasks[id].user;
    var ps := s.positions[user];
    forall m' | m' in s'.markets
      ensures BooksOk(s'.markets[m'], m', s'.positions)
    {
      assert BooksOk(s.markets[m'], m', s.positions);
      MeasuredUpdate(s.positions, user, SwapRemove(ps, i), m', CollateralOf);
      MeasuredUpdate(s.positions, user, SwapRemove(ps, i), m', CountOf);
      TotalSwapRemove(ps, i, m', CollateralOf);
      TotalSwapRemove(ps, i, m', CountOf);
    }
  }

  lemma CloseKeepsRisk(s: State, id: PosId, i: nat, d: Decision, to: TokenKey, s': State)
    requires Risk(s) && Books(s.markets, s.positions) && ClosedTo(s, id, i, d, to, s')
    ensures Risk(s')
  {
    hide Total, Sum, Measured, SwapRemove;
    var user := s.tasks[id].user;
    var ps := s.positions[user];
    forall m' | m' in s'.markets
      ensures RiskOk(s'.markets[m'], s'.Balance(Pool(m')), s'.positions)
    {
      assert RiskOk(s.markets[m'], s.Balance(Pool(m')), s.positions) && BooksOk(s.markets[m'], m', s.positions);
      TotalSwapRemove(ps, i, m', CollateralOf);
    }
  }

  lemma CloseKeepsSupply(s: State, id: PosId, i: nat, d: Decision, to: TokenKey, s': State)
    requires ClosedTo(s, id, i, d, to, s')
    ensures Supply(s'.tokens) == Supply(s.tokens)
  {
    hide SwapRemove, Supply;
    var m := id.marketId;
    var t1 := s.tokens[Pool(m) := s.Balance(Pool(m)) - d.payout - d.protocolFee];
    var t2 := t1[Fee(m) := s.Balance(Fee(m)) + d.protocolFee];
    SupplyUpdate(s.tokens, Pool(m), s.Balance(Pool(m)) - d.payout - d.protocolFee);
    SupplyUpdate(t1, Fee(m), s.Balance(Fee(m)) + d.protocolFee);
    SupplyUpdate(t2, to, s.Balance(to) + d.payout);
  }

  lemma CloseEndsLife(s: State, id: PosId, i: nat, d: Decision, to: TokenKey, s': State)
    requires Custody(s.markets, s.positions, s.tasks) && ClosedTo(s, id, i, d, to, s')
    ensures Live(s, id) && !Live(s', id)
    ensures forall id' :: id' != id ==> Live(s', id') == Live(s, id')
  {
    hide Moved, Backed, TaskOk;
    var user := s.tasks[id].user;
    var ps := s.positions[user];
    assert ListOk(s.tasks, user, ps);
    SwapRemoveMembers(ps, i);
    hide SwapRemove;
    var rest := SwapRemove(ps, i);
    forall id' | id' != id
      ensures PositionIndex(rest, id').Some? == PositionIndex(ps, id').Some?
    {
      SameNames(ps, rest, id');
    }
    assert forall j :: 0 <= j < |rest| ==> rest[j] in rest;
  }

  lemma SameNames(ps: seq<Position>, qs: seq<Position>, id: PosId)
    requires forall p: Position :: p.Id() == id ==> (p in ps <==> p in qs)
    ensures PositionIndex(ps, id).Some? == PositionIndex(qs, id).Some?
  {
    if PositionIndex(ps, id).Some? {
      assert ps[PositionIndex(ps, id).value] in qs;
    }
    if PositionIndex(qs, id).Some? {
      assert qs[PositionIndex(qs, id).value] in ps;
    }
  }

  lemma CloseKeepsJournal(s: State, id: PosId, i: nat, d: Decision, to: TokenKey, s': State)
    requires Custody(s.markets, s.positions, s.tasks) && Journal(s) && ClosedTo(s, id, i, d, to, s')
    ensures Journal(s')
  {
    CloseEndsLife(s, id, i, d, to, s');
    hide Live, SwapRemove, Moved, Custody;
    CountsPush(s.log, s'.log[|s.log|]);
  }

  lemma CloseKeepsLiquidity(s: State, id: PosId, i: nat, d: Decision, to: TokenKey, s': State)
    requires Shares(s.markets, s.liquidity) && History(s.log, s.liquidity) && ClosedTo(s, id, i, d, to, s')
    ensures Shares(s'.markets, s'.liquidity) && History(s'.log, s'.liquidity)
  {
    hide SwapRemove, Moved, Sum, Holdings, SharesIn, NetShares, EntriesOk;
    forall u, m': MarketId
      ensures NetShares(s'.log, u, m') == NetShares(s.log, u, m')
    {
      NetSharesPush(s.log, PositionClosed(id, d.outcome, d.payout, d.lpFee, d.protocolFee), u, m');
    }
  }

  lemma CloseKeepsInv(s: State, id: PosId, i: nat, d: Decision, to: TokenKey, s': State)
    requires Inv(s) && ClosedTo(s, id, i, d, to, s')
    ensures Inv(s') && Supply(s'.tokens) == Supply(s.tokens)
  {
    hide ClosedTo, Custody, Books, Risk, Shares, Journal, History, Supply;
    CloseKeepsCustody(s, id, i, d, to, s');
    CloseKeepsBooks(s, id, i, d, to, s');
    CloseKeepsRisk(s, id, i, d, to, s');
    CloseKeepsLiquidity(s, id, i, d, to, s');
    CloseKeepsSupply(s, id, i, d, to, s');
    CloseKeepsJournal(s, id, i, d, to, s');
  }

  /** In a reachable state the pool can pay, the counters can drop and the destinations can
      receive: the settlement of a live position fails only while its price decides and the
      oracle cannot be read. */
  lemma SettleSucceeds(s: State, id: PosId, oracle: OracleAccount, usable: bool, now: i64)
    requires Inv(s) && id in s.tasks
    ensures ExecSettle(s, id, oracle, usable, now).Err? ==>
              && Live(s, id)
              && Unreadable(oracle, s.markets[id.marketId].feedId)
              && s.tasks[id].created.expiresAt <= now < s.tasks[id].created.expiresAt + SETTLEMENT_BUFFER_SECONDS
  {
    hide Inv, SettlePosition, Unreadable, Supply, Live, BooksOk, RiskOk;
    MarketFacts(s, id);
    var t, m := s.tasks[id], id.marketId;
    var mk, ps, to := s.markets[m], s.positions[t.user], PayoutKey(t, usable);
    PairWithinSupply(s.tokens, Pool(m), Fee(m));
    PairWithinSupply(s.tokens, Pool(m), to);
    forall p | p in ps && p.Id() == id
      ensures Live(s, id) && p == t.created && 6 * p.collateral <= s.Balance(Pool(m))
      ensures p.collateral <= mk.openCollateral && 0 < mk.activePositions
    {
      LiveIsCovered(s, id, p);
    }
    SettleFailsOnlyByOracle(mk, ps, s.Balance(Pool(m)), s.Balance(Fee(m)), s.Balance(to), id.nonce, t.salt, oracle,
                            now);
  }

  /** What the invariants say about the market and the task of one position. */
  lemma MarketFacts(s: State, id: PosId)
    requires Inv(s) && id in s.tasks
    ensures id.marketId in s.markets && s.markets[id.marketId].marketId == id.marketId
    ensures TaskOk(s.tasks[id], id) && s.tasks[id].user in s.positions
    ensures BooksOk(s.markets[id.marketId], id.marketId, s.positions)
    ensures RiskOk(s.markets[id.marketId], s.Balance(Pool(id.marketId)), s.positions)
    ensures Supply(s.tokens) <= U64_MAX
  {
    hide Supply, Shares, Journal, History, Measured, Sum, Total, ListOk;
  }

  /** One live position is within its market's counters and covered six times by its pool. */
  lemma LiveIsCovered(s: State, id: PosId, p: Position)
    requires Inv(s) && id in s.tasks && s.tasks[id].user in s.positions
    requires p in s.positions[s.tasks[id].user] && p.Id() == id
    ensures Live(s, id) && p == s.tasks[id].created
    ensures id.marketId in s.markets
    ensures p.collateral <= s.markets[id.marketId].openCollateral && 0 < s.markets[id.marketId].activePositions
    ensures 6 * p.collateral <= s.Balance(Pool(id.marketId))
  {
    hide Custody, Books, Risk, Supply, Shares, Journal, History, Measured, Sum, Total, Live;
    MarketFacts(s, id);
    var u, m := s.tasks[id].user, id.marketId;
    var ps := s.positions[u];
    FindsLive(s, id, p);
    var i :| 0 <= i < |ps| && ps[i] == p;
    TotalAtLeast(ps, i, m, CollateralOf);
    TotalAtLeast(ps, i, m, CountOf);
    MeasuredUpdate(s.positions, u, [], m, CollateralOf);
    MeasuredUpdate(s.positions, u, [], m, CountOf);
  }
}
