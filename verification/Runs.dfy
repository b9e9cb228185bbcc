/** Every invariant holds after every sequence of commands, whatever their order, their users,
    their markets, their prices and their failures. */
module Runs {
  import opened Rust
  import opened Protocol
  import opened MarketMath
  import opened Lists
  import opened Instructions
  import opened InstructionFacts
  import opened Chain
  import opened Invariants
  import OpenKeeps
  import SettleKeeps
  import LiquidityKeeps

  lemma SettleKeepsInv(s: State, id: PosId, oracle: OracleAccount, usable: bool, now: i64, s': State)
    requires Inv(s) && id in s.tasks && ExecSettle(s, id, oracle, usable, now) == Ok(s')
    ensures Inv(s') && Supply(s'.tokens) == Supply(s.tokens) && s'.tasks == s.tasks
  {
    hide ExecSettle, Decide, Custody, Books, Risk, Shares, Journal, History, Supply;
    SettleKeeps.SettleEffectOnState(s, id, oracle, usable, now, s');
    if s' != s {
      var d := Decide(s.tasks[id].created, s.markets[id.marketId].feedId, oracle, now).value;
      var i := PositionIndex(s.positions[s.tasks[id].user], id).value;
      SettleKeeps.CloseKeepsInv(s, id, i, d, PayoutKey(s.tasks[id], usable), s');
    }
  }

  lemma DepositKeepsInv(s: State, m: MarketId, u: Pubkey, wallet: nat, amount: u64, minSharesOut: u128, s': State)
    requires Inv(s) && ExecDeposit(s, m, u, wallet, amount, minSharesOut) == Ok(s')
    ensures Inv(s') && Supply(s'.tokens) == Supply(s.tokens)
  {
    hide ExecDeposit, Custody, Books, Risk, Shares, Journal, History, Supply, LiquidityKeeps.Rebalanced;
    var ls, shares, e := LiquidityKeeps.DepositRebalances(s, m, u, wallet, amount, minSharesOut, s');
    LiquidityKeeps.RebalanceKeepsInv(s, m, u, ls, shares, e, s');
  }

  lemma WithdrawKeepsInv(s: State, m: MarketId, u: Pubkey, wallet: nat, s': State)
    requires Inv(s) && ExecWithdraw(s, m, u, wallet) == Ok(s')
    ensures Inv(s') && Supply(s'.tokens) == Supply(s.tokens)
  {
    hide ExecWithdraw, Custody, Books, Risk, Shares, Journal, History, Supply, LiquidityKeeps.Rebalanced;
    var ls, delta, e := LiquidityKeeps.WithdrawRebalances(s, m, u, wallet, s');
    LiquidityKeeps.RebalanceKeepsInv(s, m, u, ls, delta, e, s');
  }

  lemma RequestKeepsInv(s: State, m: MarketId, u: Pubkey, shares: u128, minAssetsOut: u64, s': State)
    requires Inv(s) && ExecRequest(s, m, u, shares, minAssetsOut) == Ok(s')
    ensures Inv(s') && s'.tokens == s.tokens
  {
    hide Inv;
    var ls := s.liquidity[u];
    var i := EntryIndex(ls, s.markets[m].marketId).value;
    LiquidityKeeps.PendingKeepsInv(s, u, i, ls[i].(pending := shares, minAssetsOut := minAssetsOut), s'.log[|s.log|],
                                   s');
  }

  lemma CancelKeepsInv(s: State, m: MarketId, u: Pubkey, s': State)
    requires Inv(s) && ExecCancel(s, m, u) == Ok(s')
    ensures Inv(s') && s'.tokens == s.tokens
  {
    hide Inv;
    var ls := s.liquidity[u];
    var i := EntryIndex(ls, s.markets[m].marketId).value;
    LiquidityKeeps.PendingKeepsInv(s, u, i, ls[i].(pending := 0, minAssetsOut := 0), s'.log[|s.log|], s');
  }

  /** Every instruction that succeeds keeps the invariants and the amount of tokens. */
  lemma ExecKeepsInv(s: State, c: Command, s': State)
    requires Inv(s) && Exec(s, c) == Ok(s')
    ensures Inv(s') && Supply(s'.tokens) == Supply(s.tokens)
  {
    hide Inv, Supply, ExecOpen, ExecSettle, ExecDeposit, ExecWithdraw, ExecRequest, ExecCancel, Transfer;
    match c
    case InitMarket(m, feedId, _) => LiquidityKeeps.InitMarketKeepsInv(s, m, feedId);
    case InitPositions(u) => if u !in s.positions { LiquidityKeeps.InitPositionsKeepsInv(s, u); }
    case InitLiquidity(u) => if u !in s.liquidity { LiquidityKeeps.InitLiquidityKeepsInv(s, u); }
    case SetMode(m, mode) =>
      LiquidityKeeps.SetModeKeepsInv(s, m, mode);
      LiquidityKeeps.QuietKeepsInv(s.(markets := s.markets[m := s.markets[m].(mode := mode)]),
                                   MarketModeChanged(m, mode));
    case OpenAt(m, wallet, a, oracle, now) => OpenKeeps.OpenKeepsInv(s, m, wallet, a, oracle, now, s');
    case Tick(id, oracle, usable, now) => SettleKeepsInv(s, id, oracle, usable, now, s');
    case Deposit(m, u, wallet, amount, minShares) => DepositKeepsInv(s, m, u, wallet, amount, minShares, s');
    case Request(m, u, shares, minAssets) => RequestKeepsInv(s, m, u, shares, minAssets, s');
    case Cancel(m, u) => CancelKeepsInv(s, m, u, s');
    case Execute(m, u, wallet) => WithdrawKeepsInv(s, m, u, wallet, s');
    case Send(wallet, to, amount) => LiquidityKeeps.TransferKeeps(s, Wallet(wallet), to, amount, s');
    case WithdrawFees(m, to, amount) =>
      var moved := Transfer(s, Fee(m), to, amount).value;
      LiquidityKeeps.TransferKeeps(s, Fee(m), to, amount, moved);
      LiquidityKeeps.QuietKeepsInv(moved, ProtocolFeesWithdrawn(m, amount));
    case ClaimFallback(u, to) =>
      var moved := Transfer(s, Escrow(u), to, s.Balance(Escrow(u))).value;
      LiquidityKeeps.TransferKeeps(s, Escrow(u), to, s.Balance(Escrow(u)), moved);
      LiquidityKeeps.QuietKeepsInv(moved, FallbackPayoutClaimed(u, s.Balance(Escrow(u))));
    case Undelegate(u) =>
  }

  /** A tick that decides to pay closes the position. */
  lemma PayingTickCloses(s: State, id: PosId, oracle: OracleAccount, usable: bool, now: i64)
    requires Inv(s) && Live(s, id) && id.marketId in s.markets
    requires var d := Decide(s.tasks[id].created, s.markets[id.marketId].feedId, oracle, now); d.Ok? && d.value.Pay?
    ensures ExecSettle(s, id, oracle, usable, now).Ok? && !Live(ExecSettle(s, id, oracle, usable, now).value, id)
  {
    assert BooksOk(s.markets[id.marketId], id.marketId, s.positions);
    hide Books, BooksOk, Risk, Shares, Journal, History, Supply, Unreadable, GivesPrice, SettlePosition, PositionIndex,
         ExecSettle, Decide;
    SettleKeeps.SettleSucceeds(s, id, oracle, usable, now);
    var t := s.tasks[id];
    SettleKeeps.FoundIsCreated(s, id);
    DecideFacts(t.created, s.markets[id.marketId].feedId, oracle, now);
    var s' := ExecSettle(s, id, oracle, usable, now).value;
    LateIsNoNoOp(s, id, oracle, usable, now);
    SettleKeeps.SettleEffectOnState(s, id, oracle, usable, now, s');
    var i := PositionIndex(s.positions[t.user], id).value;
    var d := Decide(t.created, s.markets[id.marketId].feedId, oracle, now).value;
    SettleKeeps.CloseEndsLife(s, id, i, d, PayoutKey(t, usable), s');
  }

  /** A due tick at or after the refund time closes the position, whatever the oracle holds. */
  lemma LateTickCloses(s: State, id: PosId, oracle: OracleAccount, usable: bool, now: i64)
    requires Inv(s) && Live(s, id) && now >= s.tasks[id].created.expiresAt + SETTLEMENT_BUFFER_SECONDS
    ensures ExecSettle(s, id, oracle, usable, now).Ok? && !Live(ExecSettle(s, id, oracle, usable, now).value, id)
  {
    hide Inv, ExecSettle, Decide, Live, Unreadable, GivesPrice;
    LiveFacts(s, id);
    DecideFacts(s.tasks[id].created, s.markets[id.marketId].feedId, oracle, now);
    PayingTickCloses(s, id, oracle, usable, now);
  }

  /** What is known of a live position. */
  lemma LiveFacts(s: State, id: PosId)
    requires Inv(s) && Live(s, id)
    ensures id in s.tasks && id.marketId in s.markets
    ensures s.tasks[id].created.collateral > 0 && s.tasks[id].created.entryPrice > 0
  {
    hide Books, Risk, Shares, Journal, History, Supply, PositionIndex;
    SettleKeeps.FoundIsCreated(s, id);
  }

  /** Once the decision is to pay, success changes the state. */
  lemma LateIsNoNoOp(s: State, id: PosId, oracle: OracleAccount, usable: bool, now: i64)
    requires Custody(s.markets, s.positions, s.tasks) && Live(s, id) && ExecSettle(s, id, oracle, usable, now).Ok?
    requires var d := Decide(s.tasks[id].created, s.markets[id.marketId].feedId, oracle, now); d.Ok? && d.value.Pay?
    requires id.marketId in s.markets && s.markets[id.marketId].marketId == id.marketId
    ensures ExecSettle(s, id, oracle, usable, now).value != s
  {
    SettleKeeps.FoundIsCreated(s, id);
    hide Custody, Decide, PositionIndex, PayBoth, SwapRemove;
  }

  /** One more iteration counted on a task changes nothing else. */
  lemma CountKeepsInv(s: State, id: PosId, s': State)
    requires Inv(s) && id in s.tasks && s.tasks[id].fired < SETTLEMENT_TASK_ITERATIONS
    requires Live(s, id) ==> s.tasks[id].fired < 20
    requires s' == s.(tasks := s.tasks[id := s.tasks[id].(fired := s.tasks[id].fired + 1)])
    ensures Inv(s')
  {
    hide Custody, Books, Risk, Shares, History, Supply, Journal, Live;
    CountKeepsCustody(s, id, s');
    CountKeepsJournal(s, id, s');
    CountKeepsRisk(s, s');
  }

  lemma CountKeepsRisk(s: State, s': State)
    requires Risk(s) && s' == s.(tasks := s'.tasks)
    ensures Risk(s')
  {
    hide RiskOk;
    assert forall m :: m in s.markets ==> RiskOk(s.markets[m], s.Balance(Pool(m)), s.positions);
  }

  lemma CountKeepsJournal(s: State, id: PosId, s': State)
    requires Journal(s) && id in s.tasks && (Live(s, id) ==> s.tasks[id].fired < 20)
    requires s' == s.(tasks := s.tasks[id := s.tasks[id].(fired := s.tasks[id].fired + 1)])
    ensures Journal(s')
  {
    assert forall i: PosId :: Live(s', i) == Live(s, i) by {
      hide PositionIndex, Journal;
    }
    hide Live, CreatedCount, ClosedCount;
  }

  lemma CountKeepsCustody(s: State, id: PosId, s': State)
    requires Custody(s.markets, s.positions, s.tasks) && id in s.tasks && s.tasks[id].fired < SETTLEMENT_TASK_ITERATIONS
    requires s' == s.(tasks := s.tasks[id := s.tasks[id].(fired := s.tasks[id].fired + 1)])
    ensures Custody(s'.markets, s'.positions, s'.tasks)
  {
    forall u | u in s.positions
      ensures ListOk(s'.tasks, u, s'.positions[u])
    {
      assert ListOk(s.tasks, u, s.positions[u]);
      hide DistinctIds;
      assert forall p :: p in s.positions[u] ==> Backed(s.tasks, u, p);
    }
  }

  lemma ApplyKeepsInv(s: State, c: Command)
    requires Inv(s)
    ensures Inv(Apply(s, c)) && Supply(Apply(s, c).tokens) == Supply(s.tokens)
  {
    hide Inv, Exec, Supply, Live;
    var after := Settled(s, c);
    if Exec(s, c).Ok? {
      ExecKeepsInv(s, c, after);
    }
    if c.Tick? && Due(s, c.id, c.now) {
      DueTick(s, c.id, c.oracle, c.usable, c.now);
      CountKeepsInv(after, c.id, Apply(s, c));
    }
  }

  /** A due tick leaves its task's counter alone; the twenty-first and later ones find or leave
      no live position. */
  lemma DueTick(s: State, id: PosId, oracle: OracleAccount, usable: bool, now: i64)
    requires Inv(s) && Due(s, id, now)
    ensures var after := Settled(s, Tick(id, oracle, usable, now));
            && after.tasks == s.tasks
            && (Live(after, id) ==> Live(s, id) && s.tasks[id].fired < 20)
  {
    hide ExecSettle, Inv, Live;
    if Live(s, id) && s.tasks[id].fired >= 20 {
      LateDueTick(s, id, oracle, usable, now);
    }
    var r := ExecSettle(s, id, oracle, usable, now);
    if r.Ok? {
      SettleKeepsInv(s, id, oracle, usable, now, r.value);
      EndedStaysEnded(s, id, id, oracle, usable, now);
    }
  }

  lemma LateDueTick(s: State, id: PosId, oracle: OracleAccount, usable: bool, now: i64)
    requires Inv(s) && Due(s, id, now) && Live(s, id) && s.tasks[id].fired >= 20
    ensures ExecSettle(s, id, oracle, usable, now).Ok? && !Live(ExecSettle(s, id, oracle, usable, now).value, id)
  {
    assert TaskOk(s.tasks[id], id);
    hide ExecSettle, Inv, Live;
    LateTickCloses(s, id, oracle, usable, now);
  }

  /** No settlement brings a position back. */
  lemma EndedStaysEnded(s: State, id: PosId, other: PosId, oracle: OracleAccount, usable: bool, now: i64)
    requires Inv(s) && id in s.tasks && ExecSettle(s, id, oracle, usable, now).Ok?
    ensures Live(ExecSettle(s, id, oracle, usable, now).value, other) ==> Live(s, other)
  {
    hide ExecSettle, Decide, Risk, Shares, Journal, History, Supply;
    var s' := ExecSettle(s, id, oracle, usable, now).value;
    SettleKeeps.SettleEffectOnState(s, id, oracle, usable, now, s');
    if s' != s {
      var d := Decide(s.tasks[id].created, s.markets[id.marketId].feedId, oracle, now).value;
      var i := PositionIndex(s.positions[s.tasks[id].user], id).value;
      SettleKeeps.CloseEndsLife(s, id, i, d, PayoutKey(s.tasks[id], usable), s');
    }
  }

  lemma InitialInv(tokens: map<TokenKey, u64>)
    requires Supply(tokens) <= U64_MAX
    ensures Inv(Initial(tokens))
  {
    hide Supply;
  }

  /** The invariants hold in every reachable state, and no token is created or lost. */
  lemma {:induction false} RunKeepsInv(tokens: map<TokenKey, u64>, cs: seq<Command>)
    requires Supply(tokens) <= U64_MAX
    ensures Inv(Run(Initial(tokens), cs))
    ensures Supply(Run(Initial(tokens), cs).tokens) == Supply(tokens)
  {
    hide Inv, Supply, Apply;
    if cs == [] {
      InitialInv(tokens);
    } else {
      RunKeepsInv(tokens, cs[..|cs| - 1]);
      ApplyKeepsInv(Run(Initial(tokens), cs[..|cs| - 1]), cs[|cs| - 1]);
    }
  }

  /** One more command at the end of a run. */
  lemma RunPush(s: State, cs: seq<Command>, c: Command)
    ensures Run(s, cs + [c]) == Apply(Run(s, cs), c)
  {
    hide Apply;
    assert (cs + [c])[..|cs|] == cs;
  }
}
