/** The whole program as a state machine: every account of every user and market, the token
    balances they move, the settlement tasks the scheduler runs, and the events emitted. */
module Chain {
  import opened Rust
  import opened Protocol
  import opened MarketMath
  import opened Instructions

  /** Token accounts by role. A market's pool and fee accounts and a user's escrow are derived
      addresses, so they differ from each other and from every wallet. */
  datatype TokenKey = Pool(marketId: MarketId) | Fee(marketId: MarketId) | Escrow(user: Pubkey) | Wallet(index: nat)

  /** A settlement task as scheduled at open time, how often it has fired, and the position it
      was scheduled for. */
  datatype Task = Task(user: Pubkey, salt: Salt, wallet: nat, openedAt: i64, fired: nat, created: Position)

  datatype State = State(
    markets: map<MarketId, Market>,
    positions: map<Pubkey, seq<Position>>,
    liquidity: map<Pubkey, seq<LiquidityEntry>>,
    tokens: map<TokenKey, u64>,
    tasks: map<PosId, Task>,
    log: seq<Event>)
  {
    function Balance(k: TokenKey): u64 {
      if k in tokens then tokens[k] else 0
    }
  }

  datatype Command =
    | InitMarket(marketId: MarketId, feedId: nat, validOracle: bool)
    | InitPositions(user: Pubkey)
    | InitLiquidity(user: Pubkey)
    | SetMode(marketId: MarketId, mode: MarketMode)
    | OpenAt(marketId: MarketId, wallet: nat, args: OpenArgs, oracle: OracleAccount, now: i64)
    | Tick(id: PosId, oracle: OracleAccount, usable: bool, now: i64)
    | Deposit(marketId: MarketId, user: Pubkey, wallet: nat, amount: u64, minSharesOut: u128)
    | Request(marketId: MarketId, user: Pubkey, shares: u128, minAssetsOut: u64)
    | Cancel(marketId: MarketId, user: Pubkey)
    | Execute(marketId: MarketId, user: Pubkey, wallet: nat)
    | Send(wallet: nat, to: TokenKey, amount: u64)
    | WithdrawFees(marketId: MarketId, to: TokenKey, amount: u64)
    | ClaimFallback(user: Pubkey, to: TokenKey)
    | Undelegate(user: Pubkey)

  // ----- one instruction

  /** A transfer between any two accounts; onto itself it only checks the balance. */
  function Transfer(s: State, from: TokenKey, to: TokenKey, amount: u64): Result<State> {
    if from == to then
      var _ :- Require(amount <= s.Balance(from), InsufficientFunds);
      Ok(s)
    else
      var moved :- TransferBalances(s.Balance(from), s.Balance(to), amount);
      Ok(s.(tokens := s.tokens[from := moved.0][to := moved.1]))
  }

  function Emit(s: State, e: Event): State {
    s.(log := s.log + [e])
  }

  function ExecOpen(s: State, m: MarketId, wallet: nat, a: OpenArgs, oracle: OracleAccount, now: i64): Result<State> {
    var _ :- Require(m in s.markets && a.user in s.positions, AccountNotInitialized);
    var e :- OpenPosition(s.markets[m], s.positions[a.user], s.Balance(Pool(m)), s.Balance(Wallet(wallet)), a, oracle,
                          now);
    var created := e.positions[|e.positions| - 1];
    Ok(State(
      s.markets[m := e.market],
      s.positions[a.user := e.positions],
      s.liquidity,
      s.tokens[Wallet(wallet) := e.wallet][Pool(m) := e.pool],
      s.tasks[PosId(m, a.nonce) := Task(a.user, a.salt, wallet, now, 0, created)],
      s.log + [e.event]))
  }

  function PayoutKey(t: Task, usable: bool): TokenKey {
    if usable then Wallet(t.wallet) else Escrow(t.user)
  }

  /** The settlement instruction with the accounts and arguments its task was scheduled with. */
  function ExecSettle(s: State, id: PosId, oracle: OracleAccount, usable: bool, now: i64): Result<State>
    requires id in s.tasks
  {
    var t := s.tasks[id];
    var m := id.marketId;
    var _ :- Require(m in s.markets && t.user in s.positions, AccountNotInitialized);
    var to := PayoutKey(t, usable);
    var e :- SettlePosition(s.markets[m], s.positions[t.user], s.Balance(Pool(m)), s.Balance(Fee(m)), s.Balance(to),
                            id.nonce, t.salt, oracle, now);
    match e
    case None => Ok(s)
    case Some(e) =>
      Ok(State(
        s.markets[m := e.market],
        s.positions[t.user := e.positions],
        s.liquidity,
        s.tokens[Pool(m) := e.pool][Fee(m) := e.fee][to := e.destination],
        s.tasks,
        s.log + [e.event]))
  }

  function ExecDeposit(
    s: State, m: MarketId, user: Pubkey, wallet: nat, amount: u64, minSharesOut: u128): Result<State>
  {
    var _ :- Require(m in s.markets && user in s.liquidity, AccountNotInitialized);
    var e :- DepositLiquidity(s.markets[m], s.liquidity[user], s.Balance(Pool(m)), s.Balance(Wallet(wallet)), user,
                              amount, minSharesOut);
    Ok(s.(markets := s.markets[m := e.market],
          liquidity := s.liquidity[user := e.entries],
          tokens := s.tokens[Wallet(wallet) := e.wallet][Pool(m) := e.pool],
          log := s.log + [e.event]))
  }

  function ExecWithdraw(s: State, m: MarketId, user: Pubkey, wallet: nat): Result<State> {
    var _ :- Require(m in s.markets && user in s.liquidity, AccountNotInitialized);
    var e :- ExecuteWithdrawal(s.markets[m], s.liquidity[user], s.Balance(Pool(m)), s.Balance(Wallet(wallet)), user);
    Ok(s.(markets := s.markets[m := e.market],
          liquidity := s.liquidity[user := e.entries],
          tokens := s.tokens[Pool(m) := e.pool][Wallet(wallet) := e.wallet],
          log := s.log + [e.event]))
  }

  function ExecRequest(s: State, m: MarketId, user: Pubkey, shares: u128, minAssetsOut: u64): Result<State> {
    var _ :- Require(m in s.markets && user in s.liquidity, AccountNotInitialized);
    var e :- RequestWithdrawal(s.markets[m], s.liquidity[user], user, shares, minAssetsOut);
    Ok(s.(liquidity := s.liquidity[user := e.0], log := s.log + [e.1]))
  }

  function ExecCancel(s: State, m: MarketId, user: Pubkey): Result<State> {
    var _ :- Require(m in s.markets && user in s.liquidity, AccountNotInitialized);
    var e :- CancelWithdrawal(s.markets[m], s.liquidity[user], user);
    Ok(s.(liquidity := s.liquidity[user := e.0], log := s.log + [e.1]))
  }

  function ExecInitMarket(s: State, m: MarketId, feedId: nat, validOracle: bool): Result<State> {
    var _ :- Require(m !in s.markets, AccountAlreadyInUse);
    var _ :- Require(validOracle, InvalidConfig);
    Ok(s.(markets := s.markets[m := Market(m, feedId, 0, 0, 0, 0, 0, Open)]))
  }

  function ExecSetMode(s: State, m: MarketId, mode: MarketMode): Result<State> {
    var _ :- Require(m in s.markets, AccountNotInitialized);
    Ok(Emit(s.(markets := s.markets[m := s.markets[m].(mode := mode)]), MarketModeChanged(m, mode)))
  }

  function ExecWithdrawFees(s: State, m: MarketId, to: TokenKey, amount: u64): Result<State> {
    var _ :- Require(m in s.markets, AccountNotInitialized);
    var _ :- Require(amount > 0, InvalidAmount);
    var s' :- Transfer(s, Fee(m), to, amount);
    Ok(Emit(s', ProtocolFeesWithdrawn(m, amount)))
  }

  function ExecClaim(s: State, user: Pubkey, to: TokenKey): Result<State> {
    var _ :- Require(user in s.positions, AccountNotInitialized);
    var amount := s.Balance(Escrow(user));
    var _ :- Require(amount > 0, InvalidAmount);
    var s' :- Transfer(s, Escrow(user), to, amount);
    Ok(Emit(s', FallbackPayoutClaimed(user, amount)))
  }

  /** Undelegation changes no account that is modelled; what matters is when it is allowed. */
  function ExecUndelegate(s: State, user: Pubkey): Result<State> {
    var _ :- Require(user in s.liquidity, AccountNotInitialized);
    var _ :- Require(s.liquidity[user] == [], ActiveUserLiquidity);
    Ok(s)
  }

  /** A tick is due while iterations remain; the i-th fires i seconds after the open or later. */
  predicate Due(s: State, id: PosId, now: i64) {
    id in s.tasks && s.tasks[id].fired < SETTLEMENT_TASK_ITERATIONS && now >= s.tasks[id].openedAt + s.tasks[id].fired
  }

  /** The instruction of a command, ignoring the scheduler's bookkeeping. */
  function Exec(s: State, c: Command): Result<State> {
    match c
    case InitMarket(m, feedId, validOracle) => ExecInitMarket(s, m, feedId, validOracle)
    case InitPositions(u) => Ok(if u in s.positions then s else s.(positions := s.positions[u := []]))
    case InitLiquidity(u) => Ok(if u in s.liquidity then s else s.(liquidity := s.liquidity[u := []]))
    case SetMode(m, mode) => ExecSetMode(s, m, mode)
    case OpenAt(m, wallet, a, oracle, now) => ExecOpen(s, m, wallet, a, oracle, now)
    case Tick(id, oracle, usable, now) =>
      var _ :- Require(Due(s, id, now), TaskNotDue);
      ExecSettle(s, id, oracle, usable, now)
    case Deposit(m, u, wallet, amount, minShares) => ExecDeposit(s, m, u, wallet, amount, minShares)
    case Request(m, u, shares, minAssets) => ExecRequest(s, m, u, shares, minAssets)
    case Cancel(m, u) => ExecCancel(s, m, u)
    case Execute(m, u, wallet) => ExecWithdraw(s, m, u, wallet)
    case Send(wallet, to, amount) => Transfer(s, Wallet(wallet), to, amount)
    case WithdrawFees(m, to, amount) => ExecWithdrawFees(s, m, to, amount)
    case ClaimFallback(u, to) => ExecClaim(s, u, to)
    case Undelegate(u) => ExecUndelegate(s, u)
  }

  // ----- runs

  /** A failed instruction is rolled back. */
  function Settled(s: State, c: Command): State {
    match Exec(s, c)
    case Ok(s') => s'
    case Err(_) => s
  }

  /** A due tick uses up one iteration whether or not its instruction succeeds. */
  function Count(before: State, c: Command, after: State): State {
    if c.Tick? && Due(before, c.id, c.now) && c.id in after.tasks then
      after.(tasks := after.tasks[c.id := after.tasks[c.id].(fired := after.tasks[c.id].fired + 1)])
    else after
  }

  function Apply(s: State, c: Command): State {
    Count(s, c, Settled(s, c))
  }

  function Run(s: State, cs: seq<Command>): State {
    if cs == [] then s else Apply(Run(s, cs[..|cs| - 1]), cs[|cs| - 1])
  }

  /** Nothing of the program exists yet; tokens are wherever their holders keep them. */
  function Initial(tokens: map<TokenKey, u64>): State {
    State(map[], map[], map[], tokens, map[], [])
  }
}
