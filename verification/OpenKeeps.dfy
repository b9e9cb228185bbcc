/** A successful open keeps every invariant. */
module OpenKeeps {
  import opened Rust
  import opened Protocol
  import opened MarketMath
  import opened Lists
  import opened Instructions
  import opened InstructionFacts
  import opened MapSums
  import opened Chain
  import opened Invariants

  /** The state after an open, in terms of the appended position. */
  ghost predicate OpenedTo(s: State, m: MarketId, wallet: nat, a: OpenArgs, now: i64, p: Position, s': State) {
    && m in s.markets && a.user in s.positions
    && var mk := s.markets[m];
    && var pool := s.Balance(Pool(m));
    && mk.marketId == m
    && p.Id() == PosId(m, mk.nextNonce) && p.salt == a.salt && p.collateral == a.collateral
    && p.expiresAt == now + POSITION_DURATION_SECONDS && p.entryPrice > 0
    && MIN_POSITION_COLLATERAL <= p.collateral <= MAX_POSITION_COLLATERAL
    && |s.positions[a.user]| < USER_POSITIONS_CAPACITY && mk.activePositions < MAX_ACTIVE_POSITIONS
    && mk.openCollateral + p.collateral <= U64_MAX && mk.nextNonce < 0xFFFF_FFFF
    && MIN_MARKET_EQUITY <= EpochBase(mk, pool) && MIN_MARKET_EQUITY <= pool
    && (Total(s.positions[a.user], m, CollateralOf) + p.collateral) * 100 <= EpochBase(mk, pool)
    && pool >= mk.openCollateral + 5 * (mk.openCollateral + p.collateral) + pool / 10
    && p.collateral <= s.Balance(Wallet(wallet)) && pool + p.collateral <= U64_MAX
    && s' == State(
         s.markets[m := mk.(riskEpochEquity := EpochBase(mk, pool),
                            openCollateral := mk.openCollateral + p.collateral,
                            activePositions := mk.activePositions + 1, nextNonce := mk.nextNonce + 1)],
         s.positions[a.user := s.positions[a.user] + [p]],
         s.liquidity,
         s.tokens[Wallet(wallet) := s.Balance(Wallet(wallet)) - p.collateral][Pool(m) := pool + p.collateral],
         s.tasks[p.Id() := Task(a.user, a.salt, wallet, now, 0, p)],
         s.log + [CreationEvent(Task(a.user, a.salt, wallet, now, 0, p))])
  }

  lemma OpenEffectOnState(
    s: State, m: MarketId, wallet: nat, a: OpenArgs, oracle: OracleAccount, now: i64, s': State) returns (p: Position)
    requires Books(s.markets, s.positions) && ExecOpen(s, m, wallet, a, oracle, now) == Ok(s')
    ensures OpenedTo(s, m, wallet, a, now, p, s')
    ensures a.nonce == s.markets[m].nextNonce
  {
    hide OpenPosition, EpochBase, Sum, Measured, Total;
    var mk, ps, pool, balance := s.markets[m], s.positions[a.user], s.Balance(Pool(m)), s.Balance(Wallet(wallet));
    assert BooksOk(mk, m, s.positions);
    OpenAdmission(mk, ps, pool, balance, a, oracle, now);
    OpenFacts(mk, ps, pool, balance, a, oracle, now);
    p := Opened(OpenPosition(mk, ps, pool, balance, a, oracle, now).value);
  }

  lemma OpenKeepsCustody(s: State, m: MarketId, wallet: nat, a: OpenArgs, now: i64, p: Position, s': State)
    requires Custody(s.markets, s.positions, s.tasks) && OpenedTo(s, m, wallet, a, now, p, s')
    ensures Custody(s'.markets, s'.positions, s'.tasks)
    ensures p.Id() !in s.tasks
  {
    var id := p.Id();
    assert id !in s.tasks;
    forall u | u in s'.positions
      ensures ListOk(s'.tasks, u, s'.positions[u])
    {
      assert ListOk(s.tasks, u, s.positions[u]);
      var ps := s.positions[u];
      forall q | q in s'.positions[u]
        ensures Backed(s'.tasks, u, q)
      {
        assert q in ps ==> Backed(s.tasks, u, q);
      }
      assert forall q :: q in ps ==> q.Id() != id;
    }
  }

  lemma OpenKeepsBooks(s: State, m: MarketId, wallet: nat, a: OpenArgs, now: i64, p: Position, s': State)
    requires Books(s.markets, s.positions) && OpenedTo(s, m, wallet, a, now, p, s')
    ensures Books(s'.markets, s'.positions)
  {
    hide EpochBase, Total, Sum, Measured;
    var ps := s.positions[a.user];
    forall m' | m' in s'.markets
      ensures BooksOk(s'.markets[m'], m', s'.positions)
    {
      assert BooksOk(s.markets[m'], m', s.positions);
      MeasuredUpdate(s.positions, a.user, ps + [p], m', CollateralOf);
      MeasuredUpdate(s.positions, a.user, ps + [p], m', CountOf);
      TotalPush(ps, p, m', CollateralOf);
      TotalPush(ps, p, m', CountOf);
    }
  }

  lemma OpenKeepsRisk(s: State, m: MarketId, wallet: nat, a: OpenArgs, now: i64, p: Position, s': State)
    requires Books(s.markets, s.positions) && Risk(s) && OpenedTo(s, m, wallet, a, now, p, s')
    ensures Risk(s')
  {
    hide Total, Sum, Measured;
    var ps := s.positions[a.user];
    forall m' | m' in s'.markets
      ensures RiskOk(s'.markets[m'], s'.Balance(Pool(m')), s'.positions)
    {
      assert RiskOk(s.markets[m'], s.Balance(Pool(m')), s.positions) && BooksOk(s.markets[m'], m', s.positions);
      TotalPush(ps, p, m', CollateralOf);
      if m' == m && s.markets[m].activePositions == 0 {
        forall u | u in s.positions
          ensures Total(s.positions[u], m, CollateralOf) == 0
        {
          NoActiveNoCollateral(s, m, u);
        }
      }
    }
  }

  lemma OpenKeepsSupply(s: State, m: MarketId, wallet: nat, a: OpenArgs, now: i64, p: Position, s': State)
    requires OpenedTo(s, m, wallet, a, now, p, s')
    ensures Supply(s'.tokens) == Supply(s.tokens)
  {
    SupplyUpdate(s.tokens, Wallet(wallet), s.Balance(Wallet(wallet)) - p.collateral);
    SupplyUpdate(s.tokens[Wallet(wallet) := s.Balance(Wallet(wallet)) - p.collateral], Pool(m),
                 s.Balance(Pool(m)) + p.collateral);
  }

  lemma OpenKeepsLive(s: State, m: MarketId, wallet: nat, a: OpenArgs, now: i64, p: Position, s': State)
    requires Custody(s.markets, s.positions, s.tasks) && OpenedTo(s, m, wallet, a, now, p, s')
    ensures p.Id() !in s.tasks && Live(s', p.Id())
    ensures forall id :: id != p.Id() ==> Live(s', id) == Live(s, id)
  {
    OpenKeepsCustody(s, m, wallet, a, now, p, s');
    var ps := s.positions[a.user];
    assert (ps + [p])[|ps|] == p;
    assert forall id :: id != p.Id() && PositionIndex(ps, id).None? ==> PositionIndex(ps + [p], id).None?;
    forall id | id != p.Id() && PositionIndex(ps, id).Some?
      ensures PositionIndex(ps + [p], id).Some?
    {
      assert (ps + [p])[PositionIndex(ps, id).value].Id() == id;
    }
  }

  lemma OpenKeepsJournal(s: State, m: MarketId, wallet: nat, a: OpenArgs, now: i64, p: Position, s': State)
    requires Custody(s.markets, s.positions, s.tasks) && Journal(s) && OpenedTo(s, m, wallet, a, now, p, s')
    ensures Journal(s')
  {
    OpenKeepsLive(s, m, wallet, a, now, p, s');
    CountsPush(s.log, CreationEvent(s'.tasks[p.Id()]));
  }

  lemma OpenKeepsLiquidity(s: State, m: MarketId, wallet: nat, a: OpenArgs, now: i64, p: Position, s': State)
    requires Shares(s.markets, s.liquidity) && History(s.log, s.liquidity) && OpenedTo(s, m, wallet, a, now, p, s')
    ensures Shares(s'.markets, s'.liquidity) && History(s'.log, s'.liquidity)
  {
    hide EpochBase, Sum, Holdings, SharesIn, NetShares, EntriesOk;
    forall u, m': MarketId
      ensures NetShares(s'.log, u, m') == NetShares(s.log, u, m')
    {
      NetSharesPush(s.log, CreationEvent(s'.tasks[p.Id()]), u, m');
    }
  }

  lemma OpenKeepsInv(s: State, m: MarketId, wallet: nat, a: OpenArgs, oracle: OracleAccount, now: i64, s': State)
    requires Inv(s) && ExecOpen(s, m, wallet, a, oracle, now) == Ok(s')
    ensures Inv(s') && Supply(s'.tokens) == Supply(s.tokens)
  {
    hide ExecOpen, OpenedTo, Custody, Books, Risk, Shares, Journal, History, Supply;
    var p := OpenEffectOnState(s, m, wallet, a, oracle, now, s');
    OpenKeepsCustody(s, m, wallet, a, now, p, s');
    OpenKeepsBooks(s, m, wallet, a, now, p, s');
    OpenKeepsRisk(s, m, wallet, a, now, p, s');
    OpenKeepsLiquidity(s, m, wallet, a, now, p, s');
    OpenKeepsSupply(s, m, wallet, a, now, p, s');
    OpenKeepsJournal(s, m, wallet, a, now, p, s');
  }
}
