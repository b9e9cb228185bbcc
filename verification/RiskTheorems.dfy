/** The safety buffer of an open and the equity of a risk epoch, along whole runs. */
module RiskTheorems {
  import opened Rust
  import opened Protocol
  import opened MarketMath
  import opened Lists
  import opened Instructions
  import opened InstructionFacts
  import opened Chain
  import opened Invariants
  import OpenKeeps
  import SettleKeeps
  import opened Runs

  /** What the pool holds beyond six times the open collateral. */
  function Slack(s: State, m: MarketId): int
    requires m in s.markets
  {
    s.Balance(Pool(m)) - 6 * s.markets[m].openCollateral
  }

  /** Commands that may take a market's pool below its buffer: opens and redemptions there. */
  predicate Draws(c: Command, m: MarketId) {
    (c.OpenAt? || c.Execute?) && c.marketId == m
  }

  /** The epoch of a market with live positions. */
  predicate SameEpoch(s: State, s': State, m: MarketId)
    requires m in s.markets && m in s'.markets
  {
    s.markets[m].activePositions > 0 && s'.markets[m].activePositions > 0 ==>
      s'.markets[m].riskEpochEquity == s.markets[m].riskEpochEquity
  }

  ghost predicate Steady(s: State, s': State, m: MarketId) {
    m in s.markets ==> m in s'.markets && Slack(s', m) >= Slack(s, m) && SameEpoch(s, s', m)
  }

  lemma SettleSteady(s: State, id: PosId, oracle: OracleAccount, usable: bool, now: i64, m: MarketId, s': State)
    requires Custody(s.markets, s.positions, s.tasks) && Books(s.markets, s.positions) && id in s.tasks
    requires ExecSettle(s, id, oracle, usable, now) == Ok(s')
    ensures Steady(s, s', m)
  {
    hide Custody, Books, ExecSettle, Decide, PositionIndex;
    SettleKeeps.SettleEffectOnState(s, id, oracle, usable, now, s');
  }

  /** An open leaves other markets alone, and its own epoch when one is running. */
  lemma OpenSteady(
    s: State, at: MarketId, wallet: nat, a: OpenArgs, oracle: OracleAccount, now: i64, m: MarketId, s': State)
    requires Books(s.markets, s.positions) && ExecOpen(s, at, wallet, a, oracle, now) == Ok(s')
    ensures m != at ==> Steady(s, s', m)
    ensures m == at ==> m in s.markets && m in s'.markets && SameEpoch(s, s', m)
    ensures m == at ==> Slack(s', m) >= s.Balance(Pool(m)) / 10
  {
    hide Books, ExecOpen, Total;
    var p := OpenKeeps.OpenEffectOnState(s, at, wallet, a, oracle, now, s');
  }

  lemma DepositSteady(
    s: State, at: MarketId, u: Pubkey, wallet: nat, amount: u64, minShares: u128, m: MarketId, s': State)
    requires Books(s.markets, s.positions) && ExecDeposit(s, at, u, wallet, amount, minShares) == Ok(s')
    ensures Steady(s, s', m)
  {
    hide Books, DepositLiquidity, MarketOrInsert, SharesForDeposit;
    SettleKeeps.MarketNamed(s, at);
    DepositFacts(s.markets[at], s.liquidity[u], s.Balance(Pool(at)), s.Balance(Wallet(wallet)), u, amount, minShares);
  }

  lemma WithdrawSteady(s: State, at: MarketId, u: Pubkey, wallet: nat, m: MarketId, s': State)
    requires Books(s.markets, s.positions) && ExecWithdraw(s, at, u, wallet) == Ok(s') && m != at
    ensures Steady(s, s', m)
  {
    hide Books, ExecuteWithdrawal;
  }

  lemma TransferSteady(s: State, from: TokenKey, to: TokenKey, amount: u64, m: MarketId, s': State)
    requires Transfer(s, from, to, amount) == Ok(s') && !from.Pool?
    ensures Steady(s, s', m) && s' == s.(tokens := s'.tokens)
  {
  }

  /** Nothing but an open or a redemption in the market itself shrinks its slack. */
  lemma ExecSteady(s: State, c: Command, m: MarketId, s': State)
    requires Inv(s) && Exec(s, c) == Ok(s') && !Draws(c, m)
    ensures Steady(s, s', m)
  {
    hide Custody, Books, Risk, Shares, Journal, History, Supply, ExecOpen, ExecSettle, ExecDeposit, ExecWithdraw,
         Transfer, RequestWithdrawal, CancelWithdrawal;
    match c
    case OpenAt(at, wallet, a, oracle, now) => OpenSteady(s, at, wallet, a, oracle, now, m, s');
    case Tick(id, oracle, usable, now) => SettleSteady(s, id, oracle, usable, now, m, s');
    case Deposit(at, u, wallet, amount, minShares) => DepositSteady(s, at, u, wallet, amount, minShares, m, s');
    case Execute(at, u, wallet) => WithdrawSteady(s, at, u, wallet, m, s');
    case Send(wallet, to, amount) => TransferSteady(s, Wallet(wallet), to, amount, m, s');
    case WithdrawFees(at, to, amount) =>
      TransferSteady(s, Fee(at), to, amount, m, Transfer(s, Fee(at), to, amount).value);
    case ClaimFallback(u, to) =>
      TransferSteady(s, Escrow(u), to, s.Balance(Escrow(u)), m, Transfer(s, Escrow(u), to, s.Balance(Escrow(u))).value);
    case _ =>
  }

  lemma ApplySteady(s: State, c: Command, m: MarketId)
    requires Inv(s) && !Draws(c, m)
    ensures Steady(s, Apply(s, c), m)
  {
    hide Inv, Exec;
    if Exec(s, c).Ok? {
      ExecSteady(s, c, m, Settled(s, c));
    }
  }

  lemma {:induction false} SlackGrows(s: State, cs: seq<Command>, m: MarketId)
    requires Inv(s) && m in s.markets && forall c :: c in cs ==> !Draws(c, m)
    ensures m in Run(s, cs).markets && Inv(Run(s, cs)) && Slack(Run(s, cs), m) >= Slack(s, m)
  {
    hide Inv, Apply;
    if cs != [] {
      var before := Run(s, cs[..|cs| - 1]);
      SlackGrows(s, cs[..|cs| - 1], m);
      ApplySteady(before, cs[|cs| - 1], m);
      ApplyKeepsInv(before, cs[|cs| - 1]);
    }
  }

  /** The buffer of an open that saw pool P: until the next open or redemption in the market, under
      any ticks at any prices and anything else, the pool keeps a tenth of P beyond six times the
      open collateral; so once every position has ended, a tenth of P is still there. */
  lemma BufferSurvives(
    s: State, m: MarketId, wallet: nat, a: OpenArgs, oracle: OracleAccount, now: i64, cs: seq<Command>)
    requires Inv(s) && ExecOpen(s, m, wallet, a, oracle, now).Ok? && forall c :: c in cs ==> !Draws(c, m)
    ensures var s' := Run(ExecOpen(s, m, wallet, a, oracle, now).value, cs);
            && m in s'.markets
            && s'.Balance(Pool(m)) >= 6 * s'.markets[m].openCollateral + s.Balance(Pool(m)) / 10
            && (s'.markets[m].activePositions == 0 ==> s'.Balance(Pool(m)) >= s.Balance(Pool(m)) / 10)
  {
    hide Inv, ExecOpen, Run;
    var s1 := ExecOpen(s, m, wallet, a, oracle, now).value;
    InvBooks(s);
    OpenSteady(s, m, wallet, a, oracle, now, m, s1);
    OpenKeeps.OpenKeepsInv(s, m, wallet, a, oracle, now, s1);
    SlackGrows(s1, cs, m);
  }

  lemma InvBooks(s: State)
    requires Inv(s)
    ensures Books(s.markets, s.positions)
  {
    hide Custody, Books, Risk, Shares, Journal, History, Supply;
  }

  /** Along every step after which positions are still live, the epoch's equity is unchanged. */
  lemma EpochIsFixed(s: State, c: Command, m: MarketId)
    requires Inv(s) && m in s.markets
    ensures m in Apply(s, c).markets && SameEpoch(s, Apply(s, c), m)
  {
    hide Inv, ExecOpen, ExecSettle, ExecDeposit, ExecWithdraw, ExecRequest, ExecCancel, Transfer;
    if !Draws(c, m) {
      ApplySteady(s, c, m);
    } else if Exec(s, c).Ok? {
      InvBooks(s);
      if c.OpenAt? {
        OpenSteady(s, m, c.wallet, c.args, c.oracle, c.now, m, Settled(s, c));
      } else {
        WithdrawEpoch(s, m, c.user, c.wallet, Settled(s, c));
      }
    }
  }

  lemma WithdrawEpoch(s: State, m: MarketId, u: Pubkey, wallet: nat, s': State)
    requires ExecWithdraw(s, m, u, wallet) == Ok(s')
    ensures m in s.markets && m in s'.markets && SameEpoch(s, s', m)
  {
    hide ExecuteWithdrawal;
    WithdrawFacts(s.markets[m], s.liquidity[u], s.Balance(Pool(m)), s.Balance(Wallet(wallet)), u);
  }

  /** Over a run in which the market never falls idle, every state has the first one's equity. */
  lemma {:induction false} EpochAlongRun(s: State, cs: seq<Command>, m: MarketId)
    requires Inv(s) && m in s.markets
    requires forall k :: 0 <= k <= |cs| ==>
        m in Run(s, cs[..k]).markets && Run(s, cs[..k]).markets[m].activePositions > 0
    ensures m in Run(s, cs).markets && Inv(Run(s, cs))
        && Run(s, cs).markets[m].riskEpochEquity == s.markets[m].riskEpochEquity
  {
    hide Inv, Apply;
    if cs != [] {
      var shorter := cs[..|cs| - 1];
      forall k | 0 <= k <= |shorter|
        ensures shorter[..k] == cs[..k]
      {
      }
      EpochAlongRun(s, shorter, m);
      assert cs[..|cs|] == cs;
      EpochIsFixed(Run(s, shorter), cs[|cs| - 1], m);
      ApplyKeepsInv(Run(s, shorter), cs[|cs| - 1]);
    }
  }
}
