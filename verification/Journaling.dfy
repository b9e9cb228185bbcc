/** What one command may write to the event log, and how large its amounts can be. */
module Journaling {
  import opened Rust
  import opened Protocol
  import opened MarketMath
  import opened Settlement
  import opened Lists
  import opened Instructions
  import opened InstructionFacts
  import opened Chain
  import opened Invariants
  import OpenKeeps
  import SettleKeeps
  import Runs

  predicate AppendsOne(log: seq<Event>, after: seq<Event>) {
    |after| == |log| + 1 && after == log + [after[|log|]]
  }

  /** An event whose amounts are bounded by the tokens there are. The minimum of a withdrawal request
      is not: it is the user's to choose. */
  predicate Sized(e: Event, supply: nat) {
    match e
    case PositionClosed(_, _, payout, lpFee, platformFee) =>
      payout + platformFee <= 6 * MAX_POSITION_COLLATERAL && lpFee <= 6 * MAX_POSITION_COLLATERAL
    case LiquidityDeposited(_, _, assets, shares) => assets <= supply && shares > 0
    case WithdrawalExecuted(_, _, _, assets) => assets <= supply
    case ProtocolFeesWithdrawn(_, assets) => assets <= supply
    case FallbackPayoutClaimed(_, assets) => assets <= supply
    case _ => true
  }

  lemma BalanceWithinSupply(s: State, k: TokenKey)
    ensures s.Balance(k) <= Supply(s.tokens)
  {
    PairWithinSupply(s.tokens, k, if k == Wallet(0) then Wallet(1) else Wallet(0));
  }

  /** A command emits at most one event, with amounts within its bounds; only a due tick closes. */
  lemma LogStep(s: State, c: Command)
    requires Inv(s)
    ensures var after := Apply(s, c).log;
            after == s.log
            || (&& AppendsOne(s.log, after) && Sized(after[|s.log|], Supply(s.tokens))
                && (after[|s.log|].PositionClosed? ==> c.Tick? && Due(s, c.id, c.now)))
  {
    hide Inv, Supply, ExecOpen, ExecSettle, ExecDeposit, ExecWithdraw, ExecRequest, ExecCancel, Transfer;
    match c
    case OpenAt(m, wallet, a, oracle, now) => OpenLog(s, m, wallet, a, oracle, now);
    case Tick(id, oracle, usable, now) => if id in s.tasks { SettleLog(s, id, oracle, usable, now); }
    case Deposit(m, u, wallet, amount, minShares) => DepositLog(s, m, u, wallet, amount, minShares);
    case Execute(m, u, wallet) => WithdrawLog(s, m, u, wallet);
    case Request(m, u, shares, minAssets) => PendingLog(s, m, u, shares, minAssets);
    case Cancel(m, u) => PendingLog(s, m, u, 0, 0);
    case Send(wallet, to, amount) => TransferLog(s, Wallet(wallet), to, amount);
    case WithdrawFees(m, to, amount) => TransferLog(s, Fee(m), to, amount);
    case ClaimFallback(u, to) => TransferLog(s, Escrow(u), to, s.Balance(Escrow(u)));
    case _ =>
  }

  lemma OpenLog(s: State, m: MarketId, wallet: nat, a: OpenArgs, oracle: OracleAccount, now: i64)
    requires Inv(s)
    ensures var r := ExecOpen(s, m, wallet, a, oracle, now);
            r.Ok? ==> AppendsOne(s.log, r.value.log) && r.value.log[|s.log|].PositionCreated?
  {
    hide Custody, Risk, Shares, Journal, History, Supply, ExecOpen, Books;
    var r := ExecOpen(s, m, wallet, a, oracle, now);
    if r.Ok? {
      var p := OpenKeeps.OpenEffectOnState(s, m, wallet, a, oracle, now, r.value);
    }
  }

  lemma PaySized(p: Position, feedId: nat, oracle: OracleAccount, now: i64)
    requires 0 < p.collateral <= MAX_POSITION_COLLATERAL && p.entryPrice > 0
    requires Decide(p, feedId, oracle, now).Ok? && Decide(p, feedId, oracle, now).value.Pay?
    ensures var d := Decide(p, feedId, oracle, now).value;
            d.payout + d.protocolFee <= 6 * MAX_POSITION_COLLATERAL && d.lpFee <= 6 * MAX_POSITION_COLLATERAL
  {
    hide Decide, PaidAt, Qualifies, InWindow;
    DecideFacts(p, feedId, oracle, now);
    if now < p.expiresAt + SETTLEMENT_BUFFER_SECONDS {
      PaidSized(p, oracle.update.price, Decide(p, feedId, oracle, now).value);
    }
  }

  lemma PaidSized(p: Position, price: i64, d: Decision)
    requires 0 < p.collateral <= MAX_POSITION_COLLATERAL && p.entryPrice > 0 && PaidAt(p, price, d)
    ensures d.payout + d.protocolFee <= 6 * MAX_POSITION_COLLATERAL && d.lpFee <= 6 * MAX_POSITION_COLLATERAL
  {
    hide RawPnl;
  }

  lemma SettleLog(s: State, id: PosId, oracle: OracleAccount, usable: bool, now: i64)
    requires Inv(s) && id in s.tasks
    ensures var r := ExecSettle(s, id, oracle, usable, now);
            r.Ok? ==>
              r.value.log == s.log
              || (&& AppendsOne(s.log, r.value.log) && r.value.log[|s.log|].PositionClosed?
                  && Sized(r.value.log[|s.log|], Supply(s.tokens)))
  {
    hide Custody, Risk, Shares, Journal, History, Supply, ExecSettle, Books, Decide, PositionIndex;
    var r := ExecSettle(s, id, oracle, usable, now);
    if r.Ok? {
      SettleKeeps.SettleEffectOnState(s, id, oracle, usable, now, r.value);
      if r.value != s {
        SettleKeeps.FoundIsCreated(s, id);
        PaySized(s.tasks[id].created, s.markets[id.marketId].feedId, oracle, now);
      }
    }
  }

  lemma DepositLog(s: State, m: MarketId, u: Pubkey, wallet: nat, amount: u64, minShares: u128)
    ensures var r := ExecDeposit(s, m, u, wallet, amount, minShares);
            r.Ok? ==> (&& AppendsOne(s.log, r.value.log) && r.value.log[|s.log|].LiquidityDeposited?
                       && Sized(r.value.log[|s.log|], Supply(s.tokens)))
  {
    hide DepositLiquidity, MarketOrInsert, SharesForDeposit, Supply;
    if ExecDeposit(s, m, u, wallet, amount, minShares).Ok? {
      DepositFacts(s.markets[m], s.liquidity[u], s.Balance(Pool(m)), s.Balance(Wallet(wallet)), u, amount, minShares);
      BalanceWithinSupply(s, Wallet(wallet));
    }
  }

  lemma WithdrawLog(s: State, m: MarketId, u: Pubkey, wallet: nat)
    ensures var r := ExecWithdraw(s, m, u, wallet);
            r.Ok? ==> (&& AppendsOne(s.log, r.value.log) && r.value.log[|s.log|].WithdrawalExecuted?
                       && Sized(r.value.log[|s.log|], Supply(s.tokens)))
  {
    hide ExecuteWithdrawal, RemoveEmptyMarket, EntryIndex, AssetsForShares, Supply;
    if ExecWithdraw(s, m, u, wallet).Ok? {
      WithdrawFacts(s.markets[m], s.liquidity[u], s.Balance(Pool(m)), s.Balance(Wallet(wallet)), u);
      BalanceWithinSupply(s, Pool(m));
    }
  }

  lemma PendingLog(s: State, m: MarketId, u: Pubkey, shares: u128, minAssets: u64)
    ensures var r := ExecRequest(s, m, u, shares, minAssets);
            r.Ok? ==> AppendsOne(s.log, r.value.log) && r.value.log[|s.log|].WithdrawalRequested?
    ensures var r := ExecCancel(s, m, u);
            r.Ok? ==> AppendsOne(s.log, r.value.log) && r.value.log[|s.log|].WithdrawalCancelled?
  {
  }

  lemma TransferLog(s: State, from: TokenKey, to: TokenKey, amount: u64)
    ensures Transfer(s, from, to, amount).Ok? ==> Transfer(s, from, to, amount).value.log == s.log
    ensures Transfer(s, from, to, amount).Ok? ==> amount <= Supply(s.tokens)
  {
    hide Supply;
    BalanceWithinSupply(s, from);
  }

  /** Over every run, nothing is written that exceeds the tokens there are. */
  lemma {:induction false} LogIsSized(tokens: map<TokenKey, u64>, cs: seq<Command>)
    requires Supply(tokens) <= U64_MAX
    ensures forall e :: e in Run(Initial(tokens), cs).log ==> Sized(e, Supply(tokens))
  {
    hide Apply, Supply, Sized, Inv;
    if cs != [] {
      var before := Run(Initial(tokens), cs[..|cs| - 1]);
      LogIsSized(tokens, cs[..|cs| - 1]);
      Runs.RunKeepsInv(tokens, cs[..|cs| - 1]);
      LogStep(before, cs[|cs| - 1]);
    }
  }

  // ----- the one amount that is not bounded

  /** A request is checked against the user's entry alone: its minimum may be any u64. */
  lemma RequestsTakeAnyMinimum(s: State, m: MarketId, u: Pubkey, shares: u128, minAssetsOut: u64)
    requires Inv(s) && m in s.markets && u in s.liquidity
    ensures var r := Exec(s, Request(m, u, shares, minAssetsOut));
            var entry := EntryIndex(s.liquidity[u], m);
            && (r.Ok? <==> && entry.Some? && 0 < shares <= s.liquidity[u][entry.value].shares
                           && s.liquidity[u][entry.value].pending == 0)
            && (r.Ok? ==> r.value.log == s.log + [WithdrawalRequested(m, u, shares, minAssetsOut)])
  {
    hide Custody, Risk, Shares, Journal, History, Supply, Measured, EntryIndex;
    assert BooksOk(s.markets[m], m, s.positions);
  }
}
