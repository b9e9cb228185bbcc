/** What an LP's holding is worth, and what the share books promise, along whole runs. */
module LpTheorems {
  import opened Rust
  import opened Protocol
  import opened Arithmetic
  import opened MarketMath
  import opened ShareMath
  import opened Lists
  import opened Instructions
  import opened InstructionFacts
  import opened MapSums
  import opened Chain
  import opened Invariants
  import LiquidityKeeps
  import opened Runs

  function Held(s: State, m: MarketId, lp: Pubkey): nat {
    if lp in s.liquidity then SharesIn(s.liquidity[lp], m) else 0
  }

  /** What the LP's shares would redeem now. */
  function Redeemable(s: State, m: MarketId, lp: Pubkey): nat
    requires m in s.markets
  {
    Redeemed(Held(s, m, lp), s.Balance(Pool(m)), s.markets[m].totalShares)
  }

  /** Everything except trading in the market and the LP's own deposits and redemptions there. */
  predicate ByOthers(c: Command, m: MarketId, lp: Pubkey) {
    match c
    case OpenAt(at, _, _, _, _) => at != m
    case Tick(id, _, _, _) => id.marketId != m
    case Deposit(at, u, _, _, _) => at != m || u != lp
    case Execute(at, u, _) => at != m || u != lp
    case _ => true
  }

  /** The LP keeps its shares and the value of a share does not fall. */
  ghost predicate Protected(s: State, s': State, m: MarketId, lp: Pubkey) {
    && m in s.markets && m in s'.markets
    && Held(s', m, lp) == Held(s, m, lp)
    && s'.Balance(Pool(m)) * s.markets[m].totalShares >= s.Balance(Pool(m)) * s'.markets[m].totalShares
  }

  lemma SameBooksProtect(s: State, s': State, m: MarketId, lp: Pubkey)
    requires m in s.markets && m in s'.markets && s'.markets[m].totalShares == s.markets[m].totalShares
    requires s'.Balance(Pool(m)) >= s.Balance(Pool(m)) && Held(s', m, lp) == Held(s, m, lp)
    ensures Protected(s, s', m, lp)
  {
    hide Held;
    MulMono(s.Balance(Pool(m)), s'.Balance(Pool(m)), s.markets[m].totalShares);
  }

  lemma OpenProtects(
    s: State, at: MarketId, wallet: nat, a: OpenArgs, oracle: OracleAccount, now: i64,
    m: MarketId, lp: Pubkey, s': State)
    requires ExecOpen(s, at, wallet, a, oracle, now) == Ok(s') && at != m && m in s.markets
    ensures Protected(s, s', m, lp)
  {
    hide OpenPosition, SharesIn;
    SameBooksProtect(s, s', m, lp);
  }

  lemma SettleProtects(
    s: State, id: PosId, oracle: OracleAccount, usable: bool, now: i64, m: MarketId, lp: Pubkey, s': State)
    requires id in s.tasks && ExecSettle(s, id, oracle, usable, now) == Ok(s') && id.marketId != m && m in s.markets
    ensures Protected(s, s', m, lp)
  {
    hide SettlePosition, SharesIn;
    SameBooksProtect(s, s', m, lp);
  }

  lemma DepositProtects(
    s: State, at: MarketId, u: Pubkey, wallet: nat, amount: u64, minShares: u128, m: MarketId, lp: Pubkey, s': State)
    requires Inv(s) && ExecDeposit(s, at, u, wallet, amount, minShares) == Ok(s') && m in s.markets
    requires (at != m || u != lp) && Held(s, m, lp) > 0
    ensures Protected(s, s', m, lp)
  {
    hide Inv, ExecDeposit, SharesIn, SharesForDeposit;
    DepositHoldings(s, at, u, wallet, amount, minShares, m, lp, s');
    if at != m {
      DepositElsewhere(s, at, u, wallet, amount, minShares, m, s');
      SameBooksProtect(s, s', m, lp);
    } else {
      HeldWithinTotal(s, m, lp);
      DepositPool(s, m, u, wallet, amount, minShares, s');
      DepositKeepsShareValue(amount, s.Balance(Pool(m)), s.markets[m].totalShares);
    }
  }

  lemma DepositElsewhere(
    s: State, at: MarketId, u: Pubkey, wallet: nat, amount: u64, minShares: u128, m: MarketId, s': State)
    requires ExecDeposit(s, at, u, wallet, amount, minShares) == Ok(s') && m in s.markets && at != m
    ensures m in s'.markets && s'.markets[m] == s.markets[m] && s'.Balance(Pool(m)) == s.Balance(Pool(m))
  {
    hide DepositLiquidity;
  }

  lemma DepositPool(s: State, m: MarketId, u: Pubkey, wallet: nat, amount: u64, minShares: u128, s': State)
    requires Inv(s) && ExecDeposit(s, m, u, wallet, amount, minShares) == Ok(s')
    ensures m in s.markets && m in s'.markets && s'.Balance(Pool(m)) == s.Balance(Pool(m)) + amount
    ensures SharesForDeposit(amount, s.Balance(Pool(m)), s.markets[m].totalShares).Ok?
    ensures s'.markets[m].totalShares
        == s.markets[m].totalShares + SharesForDeposit(amount, s.Balance(Pool(m)), s.markets[m].totalShares).value
  {
    hide Inv, DepositLiquidity, MarketOrInsert, SharesForDeposit;
    DepositFacts(s.markets[m], s.liquidity[u], s.Balance(Pool(m)), s.Balance(Wallet(wallet)), u, amount, minShares);
  }

  lemma DepositHoldings(
    s: State, at: MarketId, u: Pubkey, wallet: nat, amount: u64, minShares: u128, m: MarketId, lp: Pubkey, s': State)
    requires Inv(s) && ExecDeposit(s, at, u, wallet, amount, minShares) == Ok(s') && (at != m || u != lp)
    ensures Held(s', m, lp) == Held(s, m, lp)
  {
    hide Custody, Books, Risk, Shares, Journal, History, Supply, ExecDeposit, SharesIn, EntriesOk;
    var ls, shares, e := LiquidityKeeps.DepositRebalances(s, at, u, wallet, amount, minShares, s');
  }

  lemma WithdrawHoldings(s: State, at: MarketId, u: Pubkey, wallet: nat, m: MarketId, lp: Pubkey, s': State)
    requires Inv(s) && ExecWithdraw(s, at, u, wallet) == Ok(s') && (at != m || u != lp)
    ensures Held(s', m, lp) == Held(s, m, lp)
  {
    hide Custody, Books, Risk, Shares, Journal, History, Supply, ExecWithdraw, SharesIn, EntriesOk;
    var ls, delta, e := LiquidityKeeps.WithdrawRebalances(s, at, u, wallet, s');
  }

  lemma WithdrawElsewhere(s: State, at: MarketId, u: Pubkey, wallet: nat, m: MarketId, s': State)
    requires ExecWithdraw(s, at, u, wallet) == Ok(s') && m in s.markets && at != m
    ensures m in s'.markets && s'.markets[m] == s.markets[m] && s'.Balance(Pool(m)) == s.Balance(Pool(m))
  {
    hide ExecuteWithdrawal;
  }

  /** The redemption of one user: the pending shares leave, and their assets with them. */
  lemma WithdrawPool(s: State, m: MarketId, u: Pubkey, wallet: nat, s': State) returns (shares: u128)
    requires ExecWithdraw(s, m, u, wallet) == Ok(s')
    ensures m in s.markets && m in s'.markets
        && AssetsForShares(shares, s.Balance(Pool(m)), s.markets[m].totalShares).Ok?
    ensures s'.Balance(Pool(m))
        == s.Balance(Pool(m)) - AssetsForShares(shares, s.Balance(Pool(m)), s.markets[m].totalShares).value
    ensures s'.Balance(Wallet(wallet))
        == s.Balance(Wallet(wallet)) + AssetsForShares(shares, s.Balance(Pool(m)), s.markets[m].totalShares).value
    ensures s'.markets[m].totalShares == s.markets[m].totalShares - shares
    ensures EntryIndex(s.liquidity[u], s.markets[m].marketId).Some?
    ensures shares == s.liquidity[u][EntryIndex(s.liquidity[u], s.markets[m].marketId).value].pending
  {
    hide ExecuteWithdrawal, EntryIndex, RemoveEmptyMarket, AssetsForShares;
    WithdrawFacts(s.markets[m], s.liquidity[u], s.Balance(Pool(m)), s.Balance(Wallet(wallet)), u);
    shares := s.liquidity[u][EntryIndex(s.liquidity[u], s.markets[m].marketId).value].pending;
  }

  lemma WithdrawProtects(s: State, at: MarketId, u: Pubkey, wallet: nat, m: MarketId, lp: Pubkey, s': State)
    requires Inv(s) && ExecWithdraw(s, at, u, wallet) == Ok(s') && m in s.markets && (at != m || u != lp)
    ensures Protected(s, s', m, lp)
  {
    hide Inv, ExecWithdraw, SharesIn, AssetsForShares;
    WithdrawHoldings(s, at, u, wallet, m, lp, s');
    if at != m {
      WithdrawElsewhere(s, at, u, wallet, m, s');
      SameBooksProtect(s, s', m, lp);
    } else {
      var shares := WithdrawPool(s, m, u, wallet, s');
      RedeemKeepsShareValue(shares, s.Balance(Pool(m)), s.markets[m].totalShares);
    }
  }

  lemma HeldWithinTotal(s: State, m: MarketId, lp: Pubkey)
    requires Inv(s) && m in s.markets
    ensures Held(s, m, lp) <= s.markets[m].totalShares
  {
    hide Custody, Books, Risk, Journal, History, Supply, SharesIn, Sum, Holdings, EntriesOk;
    if lp in s.liquidity {
      HoldingsUpdate(s.liquidity, lp, [], m);
    }
  }

  lemma PendingProtects(s: State, c: Command, m: MarketId, lp: Pubkey, s': State)
    requires Inv(s) && m in s.markets && Exec(s, c) == Ok(s') && (c.Request? || c.Cancel?)
    ensures Protected(s, s', m, lp)
  {
    hide Custody, Books, Risk, Journal, Supply, SharesIn, NetShares, Shares;
    ExecKeepsInv(s, c, s');
    PendingHistory(s, c, m, lp, s');
    SameBooksProtect(s, s', m, lp);
  }

  /** The event of a request or a cancellation moves no shares, so by the history nobody's did. */
  lemma PendingHistory(s: State, c: Command, m: MarketId, lp: Pubkey, s': State)
    requires Inv(s) && Inv(s') && Exec(s, c) == Ok(s') && (c.Request? || c.Cancel?)
    ensures Held(s', m, lp) == Held(s, m, lp)
  {
    hide Custody, Books, Risk, Shares, Journal, Supply, SharesIn, NetShares, EntryIndex;
    NetSharesPush(s.log, s'.log[|s.log|], lp, m);
    assert NetShares(s.log, lp, m) == Held(s, m, lp);
    assert NetShares(s'.log, lp, m) == Held(s', m, lp);
  }

  lemma TransferProtects(s: State, from: TokenKey, to: TokenKey, amount: u64, m: MarketId, lp: Pubkey, s': State)
    requires m in s.markets && Transfer(s, from, to, amount) == Ok(s') && !from.Pool?
    ensures Protected(s, s', m, lp) && s' == s.(tokens := s'.tokens)
  {
    hide SharesIn;
    SameBooksProtect(s, s', m, lp);
  }

  lemma ExecProtects(s: State, c: Command, m: MarketId, lp: Pubkey, s': State)
    requires Inv(s) && m in s.markets && Held(s, m, lp) > 0 && Exec(s, c) == Ok(s') && ByOthers(c, m, lp)
    ensures Protected(s, s', m, lp)
  {
    hide Inv, ExecOpen, ExecSettle, ExecDeposit, ExecWithdraw, ExecRequest, ExecCancel, Transfer, SharesIn;
    match c
    case OpenAt(at, wallet, a, oracle, now) => OpenProtects(s, at, wallet, a, oracle, now, m, lp, s');
    case Tick(id, oracle, usable, now) => SettleProtects(s, id, oracle, usable, now, m, lp, s');
    case Deposit(at, u, wallet, amount, minShares) => DepositProtects(s, at, u, wallet, amount, minShares, m, lp, s');
    case Execute(at, u, wallet) => WithdrawProtects(s, at, u, wallet, m, lp, s');
    case Request(_, _, _, _) => PendingProtects(s, c, m, lp, s');
    case Cancel(_, _) => PendingProtects(s, c, m, lp, s');
    case Send(wallet, to, amount) => TransferProtects(s, Wallet(wallet), to, amount, m, lp, s');
    case WithdrawFees(at, to, amount) =>
      TransferProtects(s, Fee(at), to, amount, m, lp, Transfer(s, Fee(at), to, amount).value);
    case ClaimFallback(u, to) =>
      TransferProtects(s, Escrow(u), to, s.Balance(Escrow(u)), m, lp,
                       Transfer(s, Escrow(u), to, s.Balance(Escrow(u))).value);
    case _ => SameBooksProtect(s, s', m, lp);
  }

  lemma ApplyProtects(s: State, c: Command, m: MarketId, lp: Pubkey)
    requires Inv(s) && m in s.markets && Held(s, m, lp) > 0 && ByOthers(c, m, lp)
    ensures Protected(s, Apply(s, c), m, lp)
  {
    hide Inv, Exec, SharesIn;
    if Exec(s, c).Ok? {
      ExecProtects(s, c, m, lp, Settled(s, c));
    }
  }

  /** Whatever the others do, short of trading, what an LP can redeem never decreases. */
  lemma {:induction false} LpValueProtected(s: State, cs: seq<Command>, m: MarketId, lp: Pubkey)
    requires Inv(s) && m in s.markets && Held(s, m, lp) > 0 && forall c :: c in cs ==> ByOthers(c, m, lp)
    ensures m in Run(s, cs).markets && Inv(Run(s, cs)) && Held(Run(s, cs), m, lp) == Held(s, m, lp)
    ensures Redeemable(Run(s, cs), m, lp) >= Redeemable(s, m, lp)
  {
    hide Inv, Apply, Held, ByOthers;
    if cs != [] {
      var before, c := Run(s, cs[..|cs| - 1]), cs[|cs| - 1];
      LpValueProtected(s, cs[..|cs| - 1], m, lp);
      ApplyProtects(before, c, m, lp);
      ApplyKeepsInv(before, c);
      var after := Apply(before, c);
      HeldWithinTotal(before, m, lp);
      HeldWithinTotal(after, m, lp);
      RedeemableMono(Held(s, m, lp), before.Balance(Pool(m)), before.markets[m].totalShares,
                     after.Balance(Pool(m)), after.markets[m].totalShares);
    }
  }

  // ----- the share books

  /** The gate of undelegation: it opens exactly when the user owns no share of any market. */
  lemma UndelegationGate(s: State, u: Pubkey)
    requires Inv(s) && u in s.liquidity
    ensures ExecUndelegate(s, u).Ok? <==> forall m: MarketId :: Held(s, m, u) == 0
  {
    hide Custody, Books, Risk, Journal, History, Supply;
    var ls := s.liquidity[u];
    assert EntriesOk(ls);
    if ls != [] {
      assert EntryIndex(ls, ls[0].marketId) == Some(0);
      assert Held(s, ls[0].marketId, u) > 0;
    }
  }

  /** The events alone tell every holding. */
  lemma EventsTellHoldings(tokens: map<TokenKey, u64>, cs: seq<Command>, m: MarketId, u: Pubkey)
    requires Supply(tokens) <= U64_MAX
    ensures NetShares(Run(Initial(tokens), cs).log, u, m) == Held(Run(Initial(tokens), cs), m, u)
  {
    hide Run, Custody, Books, Risk, Shares, Journal, Supply, SharesIn, NetShares;
    RunKeepsInv(tokens, cs);
  }

  /** A withdrawal of every share of the market empties the pool into the user's account. */
  lemma LastLpTakesAll(s: State, m: MarketId, u: Pubkey, wallet: nat)
    requires Inv(s) && ExecWithdraw(s, m, u, wallet).Ok?
    requires u in s.liquidity && EntryIndex(s.liquidity[u], m).Some? && m in s.markets
    requires s.liquidity[u][EntryIndex(s.liquidity[u], m).value].pending == s.markets[m].totalShares
    ensures var s' := ExecWithdraw(s, m, u, wallet).value;
            && m in s'.markets && s'.markets[m].totalShares == 0 && s'.Balance(Pool(m)) == 0
            && s'.Balance(Wallet(wallet)) == s.Balance(Wallet(wallet)) + s.Balance(Pool(m))
  {
    hide Inv, ExecWithdraw, EntryIndex, AssetsForShares;
    RiskBooks(s, m);
    var shares := WithdrawPool(s, m, u, wallet, ExecWithdraw(s, m, u, wallet).value);
    TotalPositive(shares, s.Balance(Pool(m)), s.markets[m].totalShares);
    FullRedemption(s.Balance(Pool(m)), shares);
  }

  // ----- a market that was never traded

  /** Deposits, redemptions, opens and ticks are the commands that touch a market's pool or shares. */
  predicate Touches(c: Command, m: MarketId) {
    match c
    case OpenAt(at, _, _, _, _) => at == m
    case Tick(id, _, _, _) => id.marketId == m
    case Deposit(at, _, _, _, _) => at == m
    case Execute(at, _, _) => at == m
    case _ => false
  }

  /** The market has never had a position, and holds at least one unit for every share. */
  predicate Whole(s: State, m: MarketId) {
    m in s.markets ==> s.markets[m].nextNonce == 0 && s.markets[m].totalShares <= s.Balance(Pool(m))
  }

  lemma TransferStaysWhole(s: State, from: TokenKey, to: TokenKey, amount: u64, m: MarketId, s': State)
    requires Whole(s, m) && Transfer(s, from, to, amount) == Ok(s') && !from.Pool?
    ensures Whole(s', m)
  {
  }

  lemma UntouchedStaysWhole(s: State, c: Command, m: MarketId, s': State)
    requires Whole(s, m) && Exec(s, c) == Ok(s') && !Touches(c, m)
    ensures Whole(s', m)
  {
    hide OpenPosition, SettlePosition, DepositLiquidity, ExecuteWithdrawal, RequestWithdrawal, CancelWithdrawal,
        Transfer;
    match c
    case Send(wallet, to, amount) => TransferStaysWhole(s, Wallet(wallet), to, amount, m, s');
    case WithdrawFees(at, to, amount) =>
      TransferStaysWhole(s, Fee(at), to, amount, m, Transfer(s, Fee(at), to, amount).value);
    case ClaimFallback(u, to) =>
      TransferStaysWhole(s, Escrow(u), to, s.Balance(Escrow(u)), m,
                         Transfer(s, Escrow(u), to, s.Balance(Escrow(u))).value);
    case _ =>
  }

  lemma DepositStaysWhole(s: State, m: MarketId, u: Pubkey, wallet: nat, amount: u64, minShares: u128, s': State)
    requires Inv(s) && Whole(s, m) && ExecDeposit(s, m, u, wallet, amount, minShares) == Ok(s')
    ensures Whole(s', m)
  {
    hide Inv, ExecDeposit, SharesForDeposit;
    DepositPool(s, m, u, wallet, amount, minShares, s');
    var pool, total := s.Balance(Pool(m)), s.markets[m].totalShares;
    DepositNonce(s, m, u, wallet, amount, minShares, s');
    if total > 0 {
      DepositKeepsShareValue(amount, pool, total);
      WholeAfter(pool, total, s'.Balance(Pool(m)), s'.markets[m].totalShares);
    } else {
      FirstDeposit(amount, pool);
    }
  }

  lemma FirstDeposit(amount: u64, pool: u64)
    requires SharesForDeposit(amount, pool, 0).Ok?
    ensures SharesForDeposit(amount, pool, 0).value == pool + amount
  {
  }

  lemma DepositNonce(s: State, m: MarketId, u: Pubkey, wallet: nat, amount: u64, minShares: u128, s': State)
    requires ExecDeposit(s, m, u, wallet, amount, minShares) == Ok(s')
    ensures m in s.markets && m in s'.markets && s'.markets[m].nextNonce == s.markets[m].nextNonce
  {
    hide SharesForDeposit, MarketOrInsert;
  }

  lemma WithdrawStaysWhole(s: State, m: MarketId, u: Pubkey, wallet: nat, s': State)
    requires Inv(s) && Whole(s, m) && ExecWithdraw(s, m, u, wallet) == Ok(s')
    ensures Whole(s', m)
  {
    hide Inv, ExecWithdraw, AssetsForShares, EntryIndex;
    var shares := WithdrawPool(s, m, u, wallet, s');
    var pool, total := s.Balance(Pool(m)), s.markets[m].totalShares;
    TotalPositive(shares, pool, total);
    RedeemKeepsShareValue(shares, pool, total);
    WithdrawNonce(s, m, u, wallet, s');
    WholeAfter(pool, total, s'.Balance(Pool(m)), s'.markets[m].totalShares);
  }

  lemma WithdrawNonce(s: State, m: MarketId, u: Pubkey, wallet: nat, s': State)
    requires ExecWithdraw(s, m, u, wallet) == Ok(s')
    ensures m in s.markets && m in s'.markets && s'.markets[m].nextNonce == s.markets[m].nextNonce
  {
    hide AssetsForShares, EntryIndex, RemoveEmptyMarket, RequireValidWithdrawalRemainder;
  }

  /** A share that was worth a unit and has not lost value still is. */
  lemma WholeAfter(pool: nat, total: nat, pool': nat, total': nat)
    requires 0 < total <= pool && pool' * total >= pool * total'
    ensures total' <= pool'
  {
    MulMono(total, pool, total');
    MulCancel(total', pool', total);
  }

  lemma ApplyStaysWhole(s: State, c: Command, m: MarketId)
    requires Inv(s) && Whole(s, m) && !(c.OpenAt? && c.marketId == m)
    ensures Whole(Apply(s, c), m)
  {
    hide Inv, ExecOpen, ExecSettle, ExecDeposit, ExecWithdraw, Transfer, ExecRequest, ExecCancel;
    if Exec(s, c).Ok? {
      if c.Tick? && c.id.marketId == m {
        NoTaskUntraded(s, c.id);
      } else if c.Deposit? && c.marketId == m {
        DepositStaysWhole(s, m, c.user, c.wallet, c.amount, c.minSharesOut, Settled(s, c));
      } else if c.Execute? && c.marketId == m {
        WithdrawStaysWhole(s, m, c.user, c.wallet, Settled(s, c));
      } else {
        UntouchedStaysWhole(s, c, m, Settled(s, c));
      }
    }
  }

  lemma NoTaskUntraded(s: State, id: PosId)
    requires Inv(s) && Whole(s, id.marketId)
    ensures id !in s.tasks
  {
    hide Books, Risk, Shares, Journal, History, Supply, ListOk, TaskOk;
  }

  /** While a market has never been traded, its shares never outnumber its tokens, over any run of
      everything else, donations included; so the redemption of all of them never overflows. */
  lemma {:induction false} UntradedMarketIsWhole(tokens: map<TokenKey, u64>, cs: seq<Command>, m: MarketId)
    requires Supply(tokens) <= U64_MAX && forall c :: c in cs ==> !(c.OpenAt? && c.marketId == m)
    ensures var s := Run(Initial(tokens), cs);
            && Whole(s, m)
            && (m in s.markets && s.markets[m].totalShares > 0 ==>
                AssetsForShares(s.markets[m].totalShares, s.Balance(Pool(m)), s.markets[m].totalShares)
                  == Ok(s.Balance(Pool(m))))
  {
    hide Apply, Supply, AssetsForShares;
    var s := Run(Initial(tokens), cs);
    if cs != [] {
      UntradedMarketIsWhole(tokens, cs[..|cs| - 1], m);
      RunKeepsInv(tokens, cs[..|cs| - 1]);
      ApplyStaysWhole(Run(Initial(tokens), cs[..|cs| - 1]), cs[|cs| - 1], m);
    }
    if m in s.markets && s.markets[m].totalShares > 0 {
      FullRedemption(s.Balance(Pool(m)), s.markets[m].totalShares);
      MulMono(s.markets[m].totalShares, U64_MAX, s.Balance(Pool(m)));
      MulMono(s.Balance(Pool(m)), U64_MAX, U64_MAX);
    }
  }

  lemma TotalPositive(shares: u128, pool: u64, total: u128)
    requires AssetsForShares(shares, pool, total).Ok?
    ensures 0 < shares <= total
  {
  }

  lemma RiskBooks(s: State, m: MarketId)
    requires Inv(s) && m in s.markets
    ensures s.markets[m].marketId == m
  {
    hide Custody, Risk, Shares, Journal, History, Supply, Measured, Sum;
    assert BooksOk(s.markets[m], m, s.positions);
  }
}
