/** What governance, the scheduler and plain transfers do: the mode of a market rules its opens and
    deposits, transfers move exactly what they say, and a schedule that runs on time closes its
    position. */
module Administration {
  import opened Rust
  import opened Protocol
  import opened MarketMath
  import opened Lists
  import opened Instructions
  import opened InstructionFacts
  import opened Chain
  import opened Invariants
  import opened ChainTheorems
  import SettleKeeps
  import Runs

  // ----- modes

  /** The mode last set by a run, or the one it began with. */
  function LastMode(cs: seq<Command>, m: MarketId, initial: MarketMode): MarketMode {
    if cs == [] then initial
    else
      match cs[|cs| - 1]
      case SetMode(at, mode) => if at == m then mode else LastMode(cs[..|cs| - 1], m, initial)
      case _ => LastMode(cs[..|cs| - 1], m, initial)
  }

  /** The mode and the feed of a market are its own: no trade, deposit, withdrawal or tick changes them. */
  predicate SameTerms(s: State, s': State, m: MarketId) {
    m in s.markets ==>
        m in s'.markets && s'.markets[m].mode == s.markets[m].mode && s'.markets[m].feedId == s.markets[m].feedId
  }

  lemma OpenSameTerms(s: State, at: MarketId, wallet: nat, a: OpenArgs, oracle: OracleAccount, now: i64, m: MarketId)
    ensures var r := ExecOpen(s, at, wallet, a, oracle, now); r.Ok? ==> SameTerms(s, r.value, m)
  {
    hide OpenPosition, GivesPrice;
    if ExecOpen(s, at, wallet, a, oracle, now).Ok? {
      OpenFacts(s.markets[at], s.positions[a.user], s.Balance(Pool(at)), s.Balance(Wallet(wallet)), a, oracle, now);
    }
  }

  lemma SettleSameTerms(s: State, id: PosId, oracle: OracleAccount, usable: bool, now: i64, m: MarketId)
    requires Inv(s) && id in s.tasks
    ensures var r := ExecSettle(s, id, oracle, usable, now); r.Ok? ==> SameTerms(s, r.value, m)
  {
    hide Custody, Books, Risk, Shares, Journal, History, Supply, Decide, PositionIndex, ExecSettle;
    if ExecSettle(s, id, oracle, usable, now).Ok? {
      SettleKeeps.SettleEffectOnState(s, id, oracle, usable, now, ExecSettle(s, id, oracle, usable, now).value);
    }
  }

  lemma LiquiditySameTerms(s: State, at: MarketId, u: Pubkey, wallet: nat, amount: u64, minShares: u128, m: MarketId)
    ensures var r := ExecDeposit(s, at, u, wallet, amount, minShares); r.Ok? ==> SameTerms(s, r.value, m)
    ensures var r := ExecWithdraw(s, at, u, wallet); r.Ok? ==> SameTerms(s, r.value, m)
  {
    hide DepositLiquidity, ExecuteWithdrawal, MarketOrInsert, SharesForDeposit, AssetsForShares, RemoveEmptyMarket,
        EntryIndex;
    if ExecDeposit(s, at, u, wallet, amount, minShares).Ok? {
      DepositFacts(s.markets[at], s.liquidity[u], s.Balance(Pool(at)), s.Balance(Wallet(wallet)), u, amount, minShares);
    }
    if ExecWithdraw(s, at, u, wallet).Ok? {
      WithdrawFacts(s.markets[at], s.liquidity[u], s.Balance(Pool(at)), s.Balance(Wallet(wallet)), u);
    }
  }

  lemma ModeStep(s: State, c: Command, m: MarketId)
    requires Inv(s) && m in s.markets
    ensures m in Apply(s, c).markets
    ensures Apply(s, c).markets[m].mode == if c.SetMode? && c.marketId == m then c.mode else s.markets[m].mode
    ensures Apply(s, c).markets[m].feedId == s.markets[m].feedId
  {
    hide Inv, ExecOpen, ExecSettle, ExecDeposit, ExecWithdraw, RequestWithdrawal, CancelWithdrawal, TransferBalances;
    match c
    case OpenAt(at, wallet, a, oracle, now) => OpenSameTerms(s, at, wallet, a, oracle, now, m);
    case Tick(id, oracle, usable, now) =>
      if Due(s, id, now) {
        SettleSameTerms(s, id, oracle, usable, now, m);
      }
    case Deposit(at, u, wallet, amount, minShares) => LiquiditySameTerms(s, at, u, wallet, amount, minShares, m);
    case Execute(at, u, wallet) => LiquiditySameTerms(s, at, u, wallet, 0, 0, m);
    case _ =>
  }

  /** Over any run a market has the mode that was last set, and the feed it was made with. */
  lemma {:induction false} ModeAlongRun(s: State, cs: seq<Command>, m: MarketId)
    requires Inv(s) && m in s.markets
    ensures Inv(Run(s, cs)) && m in Run(s, cs).markets
    ensures Run(s, cs).markets[m].mode == LastMode(cs, m, s.markets[m].mode)
    ensures Run(s, cs).markets[m].feedId == s.markets[m].feedId
  {
    hide Inv, Apply;
    if cs != [] {
      ModeAlongRun(s, cs[..|cs| - 1], m);
      ModeStep(Run(s, cs[..|cs| - 1]), cs[|cs| - 1], m);
      Runs.ApplyKeepsInv(Run(s, cs[..|cs| - 1]), cs[|cs| - 1]);
    }
  }

  /** Only its initialization makes a market. */
  lemma OnlyInitMakes(s: State, c: Command, m: MarketId)
    requires Inv(s) && m !in s.markets && m in Apply(s, c).markets
    ensures c.InitMarket? && c.marketId == m && c.validOracle
    ensures Apply(s, c).markets[m] == Market(m, c.feedId, 0, 0, 0, 0, 0, Open)
  {
    hide Inv, OpenPosition, SettlePosition, DepositLiquidity, ExecuteWithdrawal, RequestWithdrawal, CancelWithdrawal,
         TransferBalances;
  }

  /** Every market of a run was made once, empty and open, and prices with the feed given then. */
  lemma {:induction false} MarketFromInit(tokens: map<TokenKey, u64>, cs: seq<Command>, m: MarketId) returns (j: nat)
    requires Supply(tokens) <= U64_MAX && m in Run(Initial(tokens), cs).markets
    ensures j < |cs| && cs[j].InitMarket? && cs[j].marketId == m && cs[j].validOracle
    ensures m !in Run(Initial(tokens), cs[..j]).markets
    ensures var made := Run(Initial(tokens), cs[..j + 1]);
            m in made.markets && made.markets[m] == Market(m, cs[j].feedId, 0, 0, 0, 0, 0, Open)
    ensures Run(Initial(tokens), cs).markets[m].feedId == cs[j].feedId
  {
    hide Inv, Apply, Supply;
    NoMarketsYet(tokens);
    var last := |cs| - 1;
    var before := Run(Initial(tokens), cs[..last]);
    Runs.RunKeepsInv(tokens, cs[..last]);
    assert cs[..last + 1] == cs;
    if m in before.markets {
      j := MarketFromInit(tokens, cs[..last], m);
      ModeStep(before, cs[last], m);
      assert cs[..last][..j] == cs[..j] && cs[..last][..j + 1] == cs[..j + 1];
    } else {
      j := last;
      OnlyInitMakes(before, cs[last], m);
    }
  }

  lemma NoMarketsYet(tokens: map<TokenKey, u64>)
    ensures Run(Initial(tokens), []).markets == map[]
  {
  }

  /** While the last mode set is close-only, no open and no deposit succeeds, however long ago it was
      set; existing positions and withdrawals are not affected by the mode check. */
  lemma CloseOnlyAdmitsNothing(
    s: State, cs: seq<Command>, m: MarketId, wallet: nat, a: OpenArgs, oracle: OracleAccount, now: i64,
    u: Pubkey, amount: u64, minShares: u128)
    requires Inv(s) && m in s.markets && LastMode(cs, m, s.markets[m].mode) == CloseOnly
    ensures ExecOpen(Run(s, cs), m, wallet, a, oracle, now).Err?
    ensures ExecDeposit(Run(s, cs), m, u, wallet, amount, minShares).Err?
  {
    hide Inv, Run, OpenPosition, DepositLiquidity, GivesPrice, Total;
    ModeAlongRun(s, cs, m);
    var t := Run(s, cs);
    if a.user in t.positions {
      OpenSucceedsExactly(t.markets[m], t.positions[a.user], t.Balance(Pool(m)), t.Balance(Wallet(wallet)), a, oracle,
                          now);
    }
    if u in t.liquidity {
      DepositSucceedsExactly(t.markets[m], t.liquidity[u], t.Balance(Pool(m)), t.Balance(Wallet(wallet)), u, amount,
                             minShares);
    }
  }

  // ----- transfers

  /** The tokens after moving an amount between two accounts, and nothing else. */
  ghost predicate Moves(s: State, s': State, from: TokenKey, to: TokenKey, amount: u64) {
    && s'.markets == s.markets && s'.positions == s.positions && s'.liquidity == s.liquidity && s'.tasks == s.tasks
    && (from != to ==>
        s'.Balance(from) == s.Balance(from) - amount && s'.Balance(to) == s.Balance(to) + amount)
    && forall k :: (k != from && k != to) || from == to ==> s'.Balance(k) == s.Balance(k)
  }

  /** In a reachable state a transfer succeeds exactly when the sender holds the amount. */
  lemma TransferExactly(s: State, from: TokenKey, to: TokenKey, amount: u64)
    requires Inv(s)
    ensures Transfer(s, from, to, amount).Ok? <==> amount <= s.Balance(from)
    ensures Transfer(s, from, to, amount).Ok? ==>
              Moves(s, Transfer(s, from, to, amount).value, from, to, amount)
              && Transfer(s, from, to, amount).value.log == s.log
  {
    hide Custody, Books, Risk, Shares, Journal, History, Supply;
    if from != to {
      PairWithinSupply(s.tokens, from, to);
    }
  }

  /** Anyone may send what a wallet holds to any account, a pool included. */
  lemma SendExactly(s: State, wallet: nat, to: TokenKey, amount: u64)
    requires Inv(s)
    ensures var r := Exec(s, Send(wallet, to, amount));
            && (r.Ok? <==> amount <= s.Balance(Wallet(wallet)))
            && (r.Ok? ==> Moves(s, r.value, Wallet(wallet), to, amount) && r.value.log == s.log)
  {
    hide Inv, Transfer;
    TransferExactly(s, Wallet(wallet), to, amount);
  }

  /** Setting a mode changes the mode of that market, says so in the log, and does nothing else. */
  lemma SetModeExactly(s: State, m: MarketId, mode: MarketMode)
    ensures var r := Exec(s, SetMode(m, mode));
            && (r.Ok? <==> m in s.markets)
            && (r.Ok? ==>
                && m in r.value.markets && r.value.markets[m].mode == mode
                && r.value.markets[m].(mode := s.markets[m].mode) == s.markets[m]
                && (forall m' :: m' in s.markets && m' != m ==>
                    m' in r.value.markets && r.value.markets[m'] == s.markets[m'])
                && r.value == s.(markets := r.value.markets, log := s.log + [MarketModeChanged(m, mode)]))
  {
  }

  /** Fees are withdrawn exactly up to what the fee account holds. */
  lemma FeesExactly(s: State, m: MarketId, to: TokenKey, amount: u64)
    requires Inv(s)
    ensures var r := Exec(s, WithdrawFees(m, to, amount));
            && (r.Ok? <==> m in s.markets && 0 < amount <= s.Balance(Fee(m)))
            && (r.Ok? ==>
                Moves(s, r.value, Fee(m), to, amount) && r.value.log == s.log + [ProtocolFeesWithdrawn(m, amount)])
  {
    hide Inv, Transfer;
    TransferExactly(s, Fee(m), to, amount);
  }

  /** A fallback claim takes all that the user's escrow holds, and fails only when it is empty. */
  lemma ClaimExactly(s: State, u: Pubkey, to: TokenKey)
    requires Inv(s)
    ensures var r := Exec(s, ClaimFallback(u, to));
            && (r.Ok? <==> u in s.positions && s.Balance(Escrow(u)) > 0)
            && (r.Ok? ==>
                && Moves(s, r.value, Escrow(u), to, s.Balance(Escrow(u)))
                && (to != Escrow(u) ==> r.value.Balance(Escrow(u)) == 0)
                && r.value.log == s.log + [FallbackPayoutClaimed(u, s.Balance(Escrow(u)))])
  {
    hide Inv, Transfer;
    TransferExactly(s, Escrow(u), to, s.Balance(Escrow(u)));
  }

  /** A payout to an unusable account is not lost: the user can claim it from the escrow. */
  lemma FallbackIsClaimable(s: State, id: PosId, oracle: OracleAccount, now: i64, to: TokenKey)
    requires Inv(s) && Due(s, id, now) && Apply(s, Tick(id, oracle, false, now)).log != s.log
    ensures var s' := Apply(s, Tick(id, oracle, false, now));
            var u := s.tasks[id].user;
            && s'.log != [] && s'.log[|s'.log| - 1].PositionClosed?
            && var payout := s'.log[|s'.log| - 1].payout;
            && s'.Balance(Escrow(u)) >= payout
            && (payout > 0 ==> Exec(s', ClaimFallback(u, to)).Ok?)
  {
    hide Inv, Apply, Exec, Live, GivesPrice, PaidAt, InWindow;
    CloseIsJustified(s, id, oracle, false, now);
    Runs.ApplyKeepsInv(s, Tick(id, oracle, false, now));
    var s' := Apply(s, Tick(id, oracle, false, now));
    OwnerStays(s, id, oracle, now);
    ClaimExactly(s', s.tasks[id].user, to);
  }

  lemma OwnerStays(s: State, id: PosId, oracle: OracleAccount, now: i64)
    requires Inv(s) && Due(s, id, now) && Inv(Apply(s, Tick(id, oracle, false, now)))
    ensures s.tasks[id].user in Apply(s, Tick(id, oracle, false, now)).positions
  {
    hide Books, Risk, Shares, Journal, History, Supply, ListOk, Apply, Exec;
    FiredOnce(s, Tick(id, oracle, false, now), id);
  }

  // ----- the schedule

  /** The ticks of one position, one a second from the open on, whatever the oracle then holds. */
  function Schedule(id: PosId, openedAt: i64, oracles: seq<OracleAccount>): seq<Command>
    requires |oracles| <= 25 && openedAt <= 0xFFFF_FFFF
  {
    if oracles == [] then []
    else
      var n := |oracles| - 1;
      Schedule(id, openedAt, oracles[..n]) + [Tick(id, oracles[n], true, openedAt + n)]
  }

  lemma {:induction false} ScheduleIsDue(s: State, id: PosId, oracles: seq<OracleAccount>)
    requires Inv(s) && id in s.tasks && s.tasks[id].fired == 0 && |oracles| <= 25
    ensures s.tasks[id].openedAt <= 0xFFFF_FFFF
    ensures var t := Run(s, Schedule(id, s.tasks[id].openedAt, oracles));
            Inv(t) && id in t.tasks && t.tasks[id] == s.tasks[id].(fired := |oracles|)
  {
    hide Inv, Apply;
    OpenedInTime(s, id);
    if oracles != [] {
      var n := |oracles| - 1;
      ScheduleIsDue(s, id, oracles[..n]);
      var before := Run(s, Schedule(id, s.tasks[id].openedAt, oracles[..n]));
      var c := Tick(id, oracles[n], true, s.tasks[id].openedAt + n);
      Runs.RunPush(s, Schedule(id, s.tasks[id].openedAt, oracles[..n]), c);
      FiredOnce(before, c, id);
      Runs.ApplyKeepsInv(before, c);
    }
  }

  lemma OpenedInTime(s: State, id: PosId)
    requires Inv(s) && id in s.tasks
    ensures s.tasks[id].openedAt <= 0xFFFF_FFFF
  {
    hide Books, Risk, Shares, Journal, History, Supply, ListOk;
    assert TaskOk(s.tasks[id], id);
  }

  /** A schedule that runs on time is never refused, and its twenty-one first ticks, the last one twenty
      seconds after the open, close the position whatever the oracle holds. */
  lemma OnTimeScheduleCloses(s: State, id: PosId, oracles: seq<OracleAccount>)
    requires Inv(s) && id in s.tasks && s.tasks[id].fired == 0 && 21 <= |oracles| <= 25
    ensures s.tasks[id].openedAt <= 0xFFFF_FFFF
    ensures var t := Run(s, Schedule(id, s.tasks[id].openedAt, oracles));
            id in t.tasks && t.tasks[id].fired == |oracles| && !Live(t, id) && ClosedCount(t.log, id) == 1
  {
    hide Run, Custody, Books, Risk, Shares, History, Supply, Live, ClosedCount, CreatedCount, Schedule;
    ScheduleIsDue(s, id, oracles);
  }
}
