/** The promises of the program, over every reachable state and every continuation. */
module ChainTheorems {
  import opened Rust
  import opened Protocol
  import opened MarketMath
  import opened Lists
  import opened Instructions
  import opened InstructionFacts
  import opened MapSums
  import opened Chain
  import opened Invariants
  import OpenKeeps
  import SettleKeeps
  import LiquidityKeeps
  import opened Runs

  // ----- solvency

  /** Each pool covers six times its open collateral, each counter is the sum over all users, at
      most eight positions are live, and each user's collateral is at most one percent of the
      equity the epoch was opened with. */
  lemma ReachableMarkets(tokens: map<TokenKey, u64>, cs: seq<Command>, m: MarketId)
    requires Supply(tokens) <= U64_MAX && m in Run(Initial(tokens), cs).markets
    ensures var s := Run(Initial(tokens), cs);
            var mk := s.markets[m];
            && s.Balance(Pool(m)) >= 6 * mk.openCollateral
            && mk.openCollateral == Sum(Measured(s.positions, m, CollateralOf))
            && mk.activePositions == Sum(Measured(s.positions, m, CountOf))
            && mk.totalShares == Sum(Holdings(s.liquidity, m))
            && mk.activePositions <= MAX_ACTIVE_POSITIONS
            && (mk.activePositions > 0 ==>
                && MIN_MARKET_EQUITY <= mk.riskEpochEquity <= MAX_MARKET_EQUITY
                && forall u :: u in s.positions ==> Total(s.positions[u], m, CollateralOf) * 100 <= mk.riskEpochEquity)
  {
    hide Run, Sum, Measured, Holdings, Supply, Total, Custody, Journal, History, EntriesOk;
    RunKeepsInv(tokens, cs);
    var s := Run(Initial(tokens), cs);
    assert BooksOk(s.markets[m], m, s.positions) && RiskOk(s.markets[m], s.Balance(Pool(m)), s.positions);
  }

  datatype Attempt = Attempt(id: PosId, oracle: OracleAccount, usable: bool, now: i64)

  /** The oracle can be read, or the position is past the point where a price matters. */
  ghost predicate Payable(s: State, t: Attempt) {
    && t.id in s.tasks && t.id.marketId in s.markets
    && (!Unreadable(t.oracle, s.markets[t.id.marketId].feedId)
        || t.now >= s.tasks[t.id].created.expiresAt + SETTLEMENT_BUFFER_SECONDS)
  }

  function SettleAll(s: State, ts: seq<Attempt>): Result<State>
    decreases |ts|
  {
    if ts == [] then Ok(s)
    else if ts[0].id !in s.tasks then Err(TaskNotDue)
    else
      var s' :- ExecSettle(s, ts[0].id, ts[0].oracle, ts[0].usable, ts[0].now);
      SettleAll(s', ts[1..])
  }

  lemma SettleKeepsPayable(s: State, t: Attempt, later: Attempt)
    requires Inv(s) && Payable(s, t) && Payable(s, later)
    requires ExecSettle(s, t.id, t.oracle, t.usable, t.now).Ok?
    ensures Payable(ExecSettle(s, t.id, t.oracle, t.usable, t.now).value, later)
  {
    hide Custody, Books, Risk, Shares, Journal, History, Supply, Unreadable, Decide, PositionIndex, ExecSettle;
    SettleKeeps.SettleEffectOnState(s, t.id, t.oracle, t.usable, t.now,
                                    ExecSettle(s, t.id, t.oracle, t.usable, t.now).value);
  }

  /** From a reachable state any list of settlements succeeds, in any order, at any prices and to
      any destinations: no transfer, subtraction or conversion fails. */
  lemma {:induction false} AnyOrderSettles(s: State, ts: seq<Attempt>)
    requires Inv(s) && forall t :: t in ts ==> Payable(s, t)
    ensures SettleAll(s, ts).Ok? && Inv(SettleAll(s, ts).value)
    decreases |ts|
  {
    hide Inv, Payable, ExecSettle;
    if ts != [] {
      var t := ts[0];
      PayableSettles(s, t);
      var s' := ExecSettle(s, t.id, t.oracle, t.usable, t.now).value;
      SettleKeepsInv(s, t.id, t.oracle, t.usable, t.now, s');
      forall later | later in ts[1..]
        ensures Payable(s', later)
      {
        SettleKeepsPayable(s, t, later);
      }
      AnyOrderSettles(s', ts[1..]);
    }
  }

  lemma PayableSettles(s: State, t: Attempt)
    requires Inv(s) && Payable(s, t)
    ensures t.id in s.tasks && ExecSettle(s, t.id, t.oracle, t.usable, t.now).Ok?
  {
    hide Inv, ExecSettle, Unreadable, GivesPrice, Live;
    SettleKeeps.SettleSucceeds(s, t.id, t.oracle, t.usable, t.now);
  }

  /** A tick now would pay the position: it is past its refund time, or it has expired and the oracle
      holds a price published inside its window. */
  ghost predicate Decisive(s: State, t: Attempt) {
    && t.id in s.tasks && t.id.marketId in s.markets
    && var p := s.tasks[t.id].created;
    && p.expiresAt <= t.now
    && (t.now >= p.expiresAt + SETTLEMENT_BUFFER_SECONDS
        || (GivesPrice(t.oracle, t.now, s.markets[t.id.marketId].feedId)
            && InWindow(p, t.oracle.update.publishTime)))
  }

  lemma DecisiveCloses(s: State, t: Attempt)
    requires Inv(s) && Decisive(s, t)
    ensures Payable(s, t) && ExecSettle(s, t.id, t.oracle, t.usable, t.now).Ok?
    ensures !Live(ExecSettle(s, t.id, t.oracle, t.usable, t.now).value, t.id)
  {
    hide Inv, ExecSettle, Qualifies, Live, Decide, InWindow;
    PayableSettles(s, t);
    if Live(s, t.id) {
      LiveFacts(s, t.id);
      DecideFacts(s.tasks[t.id].created, s.markets[t.id.marketId].feedId, t.oracle, t.now);
      PayingTickCloses(s, t.id, t.oracle, t.usable, t.now);
    } else {
      EndedStaysEnded(s, t.id, t.id, t.oracle, t.usable, t.now);
    }
  }

  /** A settlement changes neither what was scheduled nor which markets there are. */
  lemma SettleKeepsSchedule(s: State, t: Attempt)
    requires Inv(s) && t.id in s.tasks && ExecSettle(s, t.id, t.oracle, t.usable, t.now).Ok?
    ensures var s' := ExecSettle(s, t.id, t.oracle, t.usable, t.now).value;
            && s'.tasks == s.tasks && s'.markets.Keys == s.markets.Keys
            && forall m :: m in s.markets ==> s'.markets[m].feedId == s.markets[m].feedId
  {
    hide Custody, Books, Risk, Shares, Journal, History, Supply, Unreadable, Decide, PositionIndex, ExecSettle;
    SettleKeeps.SettleEffectOnState(s, t.id, t.oracle, t.usable, t.now,
                                    ExecSettle(s, t.id, t.oracle, t.usable, t.now).value);
  }

  /** When every listed tick is decisive, all of them succeed in any order and none of the listed
      positions stays live. */
  lemma {:induction false} AnyOrderCloses(s: State, ts: seq<Attempt>)
    requires Inv(s) && forall t :: t in ts ==> Decisive(s, t)
    ensures SettleAll(s, ts).Ok?
    ensures var s' := SettleAll(s, ts).value;
            && Inv(s') && s'.tasks == s.tasks && s'.markets.Keys == s.markets.Keys
            && (forall id :: Live(s', id) ==> Live(s, id))
            && (forall t :: t in ts ==> !Live(s', t.id))
    decreases |ts|
  {
    hide Inv, ExecSettle, Live, Unreadable, GivesPrice, InWindow;
    if ts != [] {
      var t := ts[0];
      DecisiveCloses(s, t);
      var s1 := ExecSettle(s, t.id, t.oracle, t.usable, t.now).value;
      SettleKeepsInv(s, t.id, t.oracle, t.usable, t.now, s1);
      SettleKeepsSchedule(s, t);
      forall later | later in ts[1..]
        ensures Decisive(s1, later)
      {
        assert later in ts && Decisive(s, later);
      }
      AnyOrderCloses(s1, ts[1..]);
      forall id | Live(s1, id)
        ensures Live(s, id)
      {
        EndedStaysEnded(s, t.id, id, t.oracle, t.usable, t.now);
      }
      assert forall later :: later in ts ==> later == t || later in ts[1..];
    }
  }

  /** A market without live positions has empty counters. */
  lemma NothingLiveNothingOpen(s: State, m: MarketId)
    requires Inv(s) && m in s.markets && forall id: PosId :: id.marketId == m ==> !Live(s, id)
    ensures s.markets[m].openCollateral == 0 && s.markets[m].activePositions == 0
  {
    hide Books, Risk, Shares, Journal, History, Supply, Live, Sum, TaskOk, Total;
    InvBooksOk(s, m);
    forall u | u in s.positions
      ensures Total(s.positions[u], m, CollateralOf) == 0 && Total(s.positions[u], m, CountOf) == 0
    {
      assert ListOk(s.tasks, u, s.positions[u]);
      forall p | p in s.positions[u]
        ensures p.marketId != m
      {
        assert Backed(s.tasks, u, p);
        SettleKeeps.FindsLive(s, p.Id(), p);
      }
      LiquidityKeeps.TotalElsewhere(s.positions[u], m);
    }
    SumOfZeros(Measured(s.positions, m, CollateralOf));
    SumOfZeros(Measured(s.positions, m, CountOf));
  }

  lemma InvBooksOk(s: State, m: MarketId)
    requires Inv(s) && m in s.markets
    ensures BooksOk(s.markets[m], m, s.positions)
  {
    hide Custody, Risk, Shares, Journal, History, Supply, BooksOk;
  }

  /** When the list covers every live position of a market, settling it in any order leaves the market
      with nothing open. */
  lemma SettlingAllEmptiesMarket(s: State, ts: seq<Attempt>, m: MarketId)
    requires Inv(s) && m in s.markets && forall t :: t in ts ==> Decisive(s, t)
    requires forall id: PosId :: id.marketId == m && Live(s, id) ==> exists t :: t in ts && t.id == id
    ensures SettleAll(s, ts).Ok? && m in SettleAll(s, ts).value.markets
    ensures SettleAll(s, ts).value.markets[m].openCollateral == 0
    ensures SettleAll(s, ts).value.markets[m].activePositions == 0
  {
    hide Inv, Live, Decisive, SettleAll;
    AnyOrderCloses(s, ts);
    NothingLiveNothingOpen(SettleAll(s, ts).value, m);
  }

  // ----- every position ends exactly once

  /** After its twenty-first due tick, and so after all twenty-five, a position is gone and its one
      close event has been emitted. */
  lemma EveryPositionEnds(tokens: map<TokenKey, u64>, cs: seq<Command>, id: PosId)
    requires Supply(tokens) <= U64_MAX && id in Run(Initial(tokens), cs).tasks
    ensures var s := Run(Initial(tokens), cs);
            && CreatedCount(s.log, id) == 1
            && ClosedCount(s.log, id) == (if Live(s, id) then 0 else 1)
            && (s.tasks[id].fired >= 21 ==> !Live(s, id)) && s.tasks[id].fired <= 25
  {
    hide Run, Custody, Books, Risk, Shares, History, Supply, Live, CreatedCount, ClosedCount;
    RunKeepsInv(tokens, cs);
    FiresWithinSchedule(Run(Initial(tokens), cs), id);
  }

  lemma FiresWithinSchedule(s: State, id: PosId)
    requires Inv(s) && id in s.tasks
    ensures s.tasks[id].fired <= 25
  {
    hide Books, Risk, Shares, Journal, History, Supply, ListOk;
    assert TaskOk(s.tasks[id], id);
  }

  /** Each due tick counts, whatever the oracle does; a tick for a position that has ended changes
      nothing else. */
  lemma TickAlwaysCounts(s: State, id: PosId, oracle: OracleAccount, usable: bool, now: i64)
    requires Inv(s) && Due(s, id, now)
    ensures var s' := Apply(s, Tick(id, oracle, usable, now));
            && id in s'.tasks && s'.tasks[id].fired == s.tasks[id].fired + 1
            && (!Live(s, id) ==> s' == s.(tasks := s'.tasks))
  {
    hide Inv, ExecSettle, Live;
    DueTick(s, id, oracle, usable, now);
    if !Live(s, id) && ExecSettle(s, id, oracle, usable, now).Ok? {
      NoOpWhenEnded(s, id, oracle, usable, now);
    }
  }

  lemma NoOpWhenEnded(s: State, id: PosId, oracle: OracleAccount, usable: bool, now: i64)
    requires Inv(s) && id in s.tasks && !Live(s, id) && ExecSettle(s, id, oracle, usable, now).Ok?
    ensures ExecSettle(s, id, oracle, usable, now).value == s
  {
    hide Custody, Books, Risk, Shares, Journal, History, Supply, ExecSettle, Decide, Live, PositionIndex;
    SettleKeeps.SettleEffectOnState(s, id, oracle, usable, now, ExecSettle(s, id, oracle, usable, now).value);
  }

  /** How many ticks of a position's schedule fire along a run. */
  function DueTicks(s: State, cs: seq<Command>, id: PosId): nat {
    if cs == [] then 0
    else
      var c := cs[|cs| - 1];
      DueTicks(s, cs[..|cs| - 1], id)
        + if c.Tick? && c.id == id && Due(Run(s, cs[..|cs| - 1]), id, c.now) then 1 else 0
  }

  /** A command counts at most one iteration on a task and changes nothing else of it. */
  lemma FiredOnce(s: State, c: Command, id: PosId)
    requires Inv(s) && id in s.tasks
    ensures id in Apply(s, c).tasks
    ensures var ticked := if c.Tick? && c.id == id && Due(s, id, c.now) then 1 else 0;
            Apply(s, c).tasks[id] == s.tasks[id].(fired := s.tasks[id].fired + ticked)
  {
    hide Inv, Exec;
    if c.Tick? {
      TickCounts(s, c, id);
    } else if c.OpenAt? {
      OpenCounts(s, c, id);
    } else {
      TasksUntouched(s, c);
    }
  }

  lemma TickCounts(s: State, c: Command, id: PosId)
    requires Inv(s) && id in s.tasks && c.Tick?
    ensures id in Apply(s, c).tasks
    ensures Apply(s, c).tasks.Keys == s.tasks.Keys
    ensures var ticked := if c.id == id && Due(s, id, c.now) then 1 else 0;
            Apply(s, c).tasks[id] == s.tasks[id].(fired := s.tasks[id].fired + ticked)
  {
    hide Inv, ExecSettle, Live;
    if Due(s, c.id, c.now) {
      DueTick(s, c.id, c.oracle, c.usable, c.now);
    }
  }

  /** An open schedules its task under a name no other task has. */
  lemma OpenCounts(s: State, c: Command, id: PosId)
    requires Inv(s) && id in s.tasks && c.OpenAt?
    ensures id in Apply(s, c).tasks && Apply(s, c).tasks[id] == s.tasks[id]
  {
    hide ExecOpen, Books, Risk, Shares, Journal, History, Supply, ListOk, TaskOk;
    if Exec(s, c).Ok? {
      var p := OpenKeeps.OpenEffectOnState(s, c.marketId, c.wallet, c.args, c.oracle, c.now, Settled(s, c));
    }
  }

  lemma {:induction false} TicksAreCounted(s: State, cs: seq<Command>, id: PosId)
    requires Inv(s) && id in s.tasks
    ensures Inv(Run(s, cs)) && id in Run(s, cs).tasks
    ensures Run(s, cs).tasks[id].fired == s.tasks[id].fired + DueTicks(s, cs, id)
  {
    hide Inv, Apply;
    if cs != [] {
      TicksAreCounted(s, cs[..|cs| - 1], id);
      ApplyKeepsInv(Run(s, cs[..|cs| - 1]), cs[|cs| - 1]);
      FiredOnce(Run(s, cs[..|cs| - 1]), cs[|cs| - 1], id);
    }
  }

  /** The schedule ends every position: whatever else happens in between and whatever the oracle
      shows or fails to show, a run in which twenty-one of the twenty-five ticks fire leaves the
      position closed, with exactly one close event, and never again live. */
  lemma ScheduleEndsPosition(s: State, cs: seq<Command>, id: PosId)
    requires Inv(s) && id in s.tasks && DueTicks(s, cs, id) >= 21
    ensures !Live(Run(s, cs), id) && ClosedCount(Run(s, cs).log, id) == 1
  {
    hide Run, Custody, Books, Risk, Shares, History, Supply, Live, CreatedCount, ClosedCount, DueTicks;
    TicksAreCounted(s, cs, id);
  }

  /** What a due tick pays, to the token: the pool loses exactly the payout and the fee of the
      emitted event, the fee account gains the fee, the payout goes to the wallet the position was
      opened from or, when that is unusable, to the user's escrow, and no other account changes. From
      the refund time on the collateral goes back; before it, a price of the market's own feed that
      was published inside the position's settlement window decides. */
  lemma CloseIsJustified(s: State, id: PosId, oracle: OracleAccount, usable: bool, now: i64)
    requires Inv(s) && Due(s, id, now) && Apply(s, Tick(id, oracle, usable, now)).log != s.log
    ensures Live(s, id) && !Live(Apply(s, Tick(id, oracle, usable, now)), id) && id.marketId in s.markets
    ensures var s' := Apply(s, Tick(id, oracle, usable, now));
            var t, p, m := s.tasks[id], s.tasks[id].created, id.marketId;
            var to := if usable then Wallet(t.wallet) else Escrow(t.user);
            && p.collateral > 0 && p.entryPrice > 0
            && |s'.log| == |s.log| + 1 && s'.log[..|s.log|] == s.log
            && var e := s'.log[|s.log|];
            && e.PositionClosed? && e.id == id
            && s'.Balance(Pool(m)) == s.Balance(Pool(m)) - e.payout - e.platformFee
            && s'.Balance(Fee(m)) == s.Balance(Fee(m)) + e.platformFee
            && s'.Balance(to) == s.Balance(to) + e.payout
            && (forall k :: k != Pool(m) && k != Fee(m) && k != to ==> s'.Balance(k) == s.Balance(k))
            && (if now >= p.expiresAt + SETTLEMENT_BUFFER_SECONDS
                then (e.outcome == Refunded && e.payout == p.collateral && e.lpFee == 0 && e.platformFee == 0)
                else (&& now >= p.expiresAt && e.outcome != Refunded
                      && GivesPrice(oracle, now, s.markets[m].feedId) && InWindow(p, oracle.update.publishTime)
                      && PaidAt(p, oracle.update.price, Pay(e.payout, e.platformFee, e.lpFee, e.outcome))))
  {
    hide Custody, Books, Risk, Shares, Journal, History, Supply, ExecSettle, Decide, GivesPrice, Unreadable,
         PositionIndex, InWindow;
    var s' := Settled(s, Tick(id, oracle, usable, now));
    SettleKeeps.SettleEffectOnState(s, id, oracle, usable, now, s');
    SettleKeeps.FoundIsCreated(s, id);
    var p := s.tasks[id].created;
    DecideFacts(p, s.markets[id.marketId].feedId, oracle, now);
    var i := PositionIndex(s.positions[s.tasks[id].user], id).value;
    SettleKeeps.CloseEndsLife(s, id, i, Decide(p, s.markets[id.marketId].feedId, oracle, now).value,
                              PayoutKey(s.tasks[id], usable), s');
    LiveAfterCount(s, id, oracle, usable, now);
  }

  lemma LiveAfterCount(s: State, id: PosId, oracle: OracleAccount, usable: bool, now: i64)
    requires Due(s, id, now) && id in Settled(s, Tick(id, oracle, usable, now)).tasks
    ensures Live(Apply(s, Tick(id, oracle, usable, now)), id) == Live(Settled(s, Tick(id, oracle, usable, now)), id)
  {
    hide ExecSettle, PositionIndex;
  }

  // ----- names are never reused

  lemma TasksGrow(s: State, c: Command)
    requires Inv(s)
    ensures s.tasks.Keys <= Apply(s, c).tasks.Keys
  {
    hide Inv, ExecSettle, OpenPosition, ExecDeposit, ExecWithdraw, ExecRequest, ExecCancel, Transfer, TransferBalances;
    match c
    case Tick(id, oracle, usable, now) =>
      if Due(s, id, now) {
        DueTick(s, id, oracle, usable, now);
      }
    case Deposit(m, u, wallet, amount, minShares) => TasksUntouched(s, c);
    case Request(m, u, shares, minAssets) => TasksUntouched(s, c);
    case Cancel(m, u) => TasksUntouched(s, c);
    case Execute(m, u, wallet) => TasksUntouched(s, c);
    case Send(wallet, to, amount) => TasksUntouched(s, c);
    case WithdrawFees(m, to, amount) => TasksUntouched(s, c);
    case ClaimFallback(u, to) => TasksUntouched(s, c);
    case _ =>
  }

  lemma TasksUntouched(s: State, c: Command)
    requires !c.OpenAt? && !c.Tick?
    ensures Apply(s, c).tasks == s.tasks && Apply(s, c).positions.Keys >= s.positions.Keys
  {
    hide DepositLiquidity, ExecuteWithdrawal, RequestWithdrawal, CancelWithdrawal, TransferBalances;
  }

  lemma {:induction false} TasksGrowAlong(s: State, cs: seq<Command>)
    requires Inv(s)
    ensures Inv(Run(s, cs)) && s.tasks.Keys <= Run(s, cs).tasks.Keys
  {
    hide Inv, Apply;
    if cs != [] {
      TasksGrowAlong(s, cs[..|cs| - 1]);
      ApplyKeepsInv(Run(s, cs[..|cs| - 1]), cs[|cs| - 1]);
      TasksGrow(Run(s, cs[..|cs| - 1]), cs[|cs| - 1]);
    }
  }

  /** Two opens with the same nonce in one market never both succeed, however far apart and
      whoever sends them. */
  lemma NonceOpensOnce(
    s: State, m: MarketId, wallet: nat, a: OpenArgs, oracle: OracleAccount, now: i64, cs: seq<Command>,
    wallet': nat, a': OpenArgs, oracle': OracleAccount, now': i64)
    requires Inv(s) && ExecOpen(s, m, wallet, a, oracle, now).Ok? && a'.nonce == a.nonce
    ensures ExecOpen(Run(ExecOpen(s, m, wallet, a, oracle, now).value, cs), m, wallet', a', oracle', now').Err?
  {
    hide OpenPosition, Books, Risk, Shares, Journal, History, Supply, Run, ListOk, TaskOk;
    var s1 := ExecOpen(s, m, wallet, a, oracle, now).value;
    OpenKeeps.OpenKeepsInv(s, m, wallet, a, oracle, now, s1);
    TasksGrowAlong(s1, cs);
    var s2 := Run(s1, cs);
    assert PosId(m, a.nonce) in s1.tasks && PosId(m, a.nonce) in s2.tasks;
    var r := ExecOpen(s2, m, wallet', a', oracle', now');
    if r.Ok? {
      var p := OpenKeeps.OpenEffectOnState(s2, m, wallet', a', oracle', now', r.value);
    }
  }

  /** One name is in at most one list, and below the next nonce of its market. */
  lemma LiveNamesUnique(s: State, u: Pubkey, v: Pubkey, p: Position, q: Position)
    requires Inv(s) && u in s.positions && v in s.positions && p in s.positions[u] && q in s.positions[v]
    ensures p.marketId in s.markets && p.nonce < s.markets[p.marketId].nextNonce
    ensures p.Id() == q.Id() ==> u == v && p == q
    ensures DistinctIds(s.positions[u])
  {
    hide Books, Risk, Shares, Journal, History, Supply, TaskOk;
    assert ListOk(s.tasks, u, s.positions[u]) && ListOk(s.tasks, v, s.positions[v]);
    assert Backed(s.tasks, u, p) && Backed(s.tasks, v, q);
  }
}
