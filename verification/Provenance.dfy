/** Where what the chain and the index hold came from: which command opened a position, which tick
    closed it, and what the oracle held then. */
module Provenance {
  import opened Rust
  import opened Protocol
  import opened MarketMath
  import opened Instructions
  import opened InstructionFacts
  import opened Chain
  import opened Invariants
  import opened ChainTheorems
  import opened Journaling
  import opened Projection
  import OpenKeeps
  import SettleKeeps
  import Runs
  import EndToEnd

  // ----- the opening command

  /** The task says what its open asked for and what the oracle held for the market's own feed. */
  ghost predicate OpenedBy(t: Task, c: Command, feedId: nat) {
    && c.OpenAt?
    && GivesPrice(c.oracle, c.now, feedId)
    && t.user == c.args.user && t.salt == c.args.salt && t.wallet == c.wallet && t.openedAt == c.now
    && t.created.collateral == c.args.collateral && t.created.direction == c.args.direction
    && t.created.entryPrice == c.oracle.update.price && t.created.salt == c.args.salt
    && t.created.expiresAt == c.now + 10
  }

  /** The market after an open that saw the given pool. */
  predicate MarketOpened(mk: Market, mk': Market, pool: nat, collateral: nat) {
    && mk' == mk.(riskEpochEquity := mk'.riskEpochEquity, openCollateral := mk'.openCollateral,
                  activePositions := mk'.activePositions, nextNonce := mk'.nextNonce)
    && mk'.riskEpochEquity == (if mk.activePositions > 0 then mk.riskEpochEquity
                               else if pool <= MAX_MARKET_EQUITY then pool else MAX_MARKET_EQUITY)
    && mk'.openCollateral == mk.openCollateral + collateral
    && mk'.activePositions == mk.activePositions + 1 && mk'.nextNonce == mk.nextNonce + 1
  }

  /** The collateral moves from the wallet to the pool, and no other balance changes. */
  ghost predicate CollateralMoves(s: State, s': State, m: MarketId, wallet: nat, collateral: nat) {
    && s'.Balance(Pool(m)) == s.Balance(Pool(m)) + collateral
    && s'.Balance(Wallet(wallet)) == s.Balance(Wallet(wallet)) - collateral
    && forall k :: k != Pool(m) && k != Wallet(wallet) ==> s'.Balance(k) == s.Balance(k)
  }

  /** The whole effect of an open: its task, its position, its tokens, its market and its event. */
  ghost predicate Opens(s: State, s': State, c: Command)
    requires c.OpenAt?
  {
    var a, m, id := c.args, c.marketId, PosId(c.marketId, c.args.nonce);
    && m in s.markets && m in s'.markets && a.user in s.positions && id !in s.tasks && id in s'.tasks
    && var t := s'.tasks[id];
    && a.nonce == s.markets[m].nextNonce
    && OpenedBy(t, c, s.markets[m].feedId) && t.fired == 0 && t.created.Id() == id
    && s'.tasks == s.tasks[id := t]
    && s'.positions == s.positions[a.user := s.positions[a.user] + [t.created]]
    && s'.liquidity == s.liquidity
    && CollateralMoves(s, s', m, c.wallet, a.collateral)
    && MarketOpened(s.markets[m], s'.markets[m], s.Balance(Pool(m)), a.collateral)
    && s'.markets == s.markets[m := s'.markets[m]]
    && |s'.log| == |s.log| + 1 && s'.log == s.log + [s'.log[|s.log|]]
    && var e := s'.log[|s.log|];
    && e.PositionCreated? && e.id == id && e.user == a.user && e.entryPrice == c.oracle.update.price
    && e.collateral == a.collateral && e.direction == a.direction && e.expiresAt == c.now + 10
  }

  lemma OpenRecords(s: State, c: Command)
    requires Inv(s) && c.OpenAt? && Exec(s, c).Ok?
    ensures Opens(s, Exec(s, c).value, c)
  {
    hide OpenPosition, GivesPrice, Risk, Shares, Journal, History, Supply, ListOk, TaskOk, BooksOk;
    var a, m := c.args, c.marketId;
    assert BooksOk(s.markets[m], m, s.positions);
    MarketId(s, m);
    OpenFacts(s.markets[m], s.positions[a.user], s.Balance(Pool(m)), s.Balance(Wallet(c.wallet)), a, c.oracle, c.now);
    OpenAdmission(s.markets[m], s.positions[a.user], s.Balance(Pool(m)), s.Balance(Wallet(c.wallet)), a, c.oracle,
                  c.now);
  }

  lemma MarketId(s: State, m: MarketId)
    requires Inv(s) && m in s.markets
    ensures s.markets[m].marketId == m
  {
    hide Custody, Risk, Shares, Journal, History, Supply;
    SettleKeeps.MarketNamed(s, m);
  }

  /** Only an open adds a task. */
  lemma OnlyOpensAdd(s: State, c: Command)
    requires Inv(s) && !c.OpenAt?
    ensures Apply(s, c).tasks.Keys == s.tasks.Keys
  {
    hide Inv, Exec, ExecSettle;
    if c.Tick? {
      if Due(s, c.id, c.now) {
        Runs.DueTick(s, c.id, c.oracle, c.usable, c.now);
      } else {
        NotDue(s, c);
      }
    } else {
      TasksUntouched(s, c);
    }
  }

  lemma NotDue(s: State, c: Command)
    requires c.Tick? && !Due(s, c.id, c.now)
    ensures Apply(s, c) == s
  {
  }

  /** Every position was opened by one command of the run, at the price that the oracle account of the
      command held for the market's own feed. */
  lemma {:induction false} OpenedByCommand(tokens: map<TokenKey, u64>, cs: seq<Command>, id: PosId) returns (j: nat)
    requires Supply(tokens) <= U64_MAX && id in Run(Initial(tokens), cs).tasks
    ensures j < |cs| && cs[j].OpenAt? && cs[j].marketId == id.marketId && cs[j].args.nonce == id.nonce
    ensures var before := Run(Initial(tokens), cs[..j]);
            && id !in before.tasks && id.marketId in before.markets && Exec(before, cs[j]).Ok?
            && OpenedBy(Run(Initial(tokens), cs).tasks[id], cs[j], before.markets[id.marketId].feedId)
  {
    hide Apply, Supply, Inv, Exec, GivesPrice;
    NoTasksYet(tokens);
    var last := |cs| - 1;
    var before, c := Run(Initial(tokens), cs[..last]), cs[last];
    Runs.RunKeepsInv(tokens, cs[..last]);
    if id in before.tasks {
      j := OpenedByCommand(tokens, cs[..last], id);
      FiredOnce(before, c, id);
      assert cs[..last][..j] == cs[..j];
    } else {
      j := last;
      NewTask(before, c, id);
    }
  }

  lemma NoTasksYet(tokens: map<TokenKey, u64>)
    ensures Run(Initial(tokens), []).tasks == map[]
  {
  }

  lemma NewTask(s: State, c: Command, id: PosId)
    requires Inv(s) && id !in s.tasks && id in Apply(s, c).tasks
    ensures c.OpenAt? && c.marketId == id.marketId && c.args.nonce == id.nonce
    ensures Exec(s, c).Ok? && id.marketId in s.markets
    ensures OpenedBy(Apply(s, c).tasks[id], c, s.markets[id.marketId].feedId)
  {
    hide Inv, ExecOpen, GivesPrice;
    if !c.OpenAt? {
      OnlyOpensAdd(s, c);
    }
    OpenRecords(s, c);
  }

  // ----- the closing tick

  /** The tick that closed the position, in the state it met. */
  ghost predicate ClosedBy(before: State, after: State, c: Command, id: PosId) {
    && c.Tick? && c.id == id && Due(before, id, c.now)
    && Live(before, id) && !Live(after, id)
    && after == Apply(before, c) && after.log != before.log
  }

  lemma LogGrows(s: State, c: Command, e: Event)
    requires Inv(s) && e in s.log
    ensures e in Apply(s, c).log
  {
    hide Inv, Apply, Sized;
    LogStep(s, c);
  }

  /** When the last command of a run ends a position, it is its due tick. */
  lemma EndsByTick(s: State, c: Command, id: PosId)
    requires Inv(s) && Inv(Apply(s, c)) && id in Apply(s, c).tasks && !Live(Apply(s, c), id)
    requires id !in s.tasks || Live(s, id)
    ensures ClosedBy(s, Apply(s, c), c, id)
  {
    hide Custody, Books, Risk, Shares, History, Supply, Live, CreatedCount, ClosedCount, Apply, Sized;
    var after := Apply(s, c);
    LogStep(s, c);
    if after.log != s.log {
      CountsPush(s.log, after.log[|s.log|]);
    }
    assert ClosedCount(s.log, id) == 0 && ClosedCount(after.log, id) == 1;
    CloseIsJustified(s, c.id, c.oracle, c.usable, c.now);
  }

  /** Every position that has ended was closed by one due tick of the run, and its event is in the
      journal. */
  lemma {:induction false} ClosedByTick(tokens: map<TokenKey, u64>, cs: seq<Command>, id: PosId) returns (j: nat)
    requires Supply(tokens) <= U64_MAX
    requires id in Run(Initial(tokens), cs).tasks && !Live(Run(Initial(tokens), cs), id)
    ensures j < |cs|
    ensures var before, after := Run(Initial(tokens), cs[..j]), Run(Initial(tokens), cs[..j + 1]);
            && Inv(before) && ClosedBy(before, after, cs[j], id)
            && |after.log| == |before.log| + 1 && after.log[|before.log|] in Run(Initial(tokens), cs).log
            && id in before.tasks && before.tasks[id].created == Run(Initial(tokens), cs).tasks[id].created
  {
    hide Apply, Supply, Inv, Live, Due;
    NoTasksYet(tokens);
    var last := |cs| - 1;
    var before, c := Run(Initial(tokens), cs[..last]), cs[last];
    Runs.RunKeepsInv(tokens, cs[..last]);
    Runs.ApplyKeepsInv(before, c);
    assert cs[..last + 1] == cs;
    if id in before.tasks && !Live(before, id) {
      j := ClosedByTick(tokens, cs[..last], id);
      assert cs[..last][..j] == cs[..j] && cs[..last][..j + 1] == cs[..j + 1];
      FiredOnce(before, c, id);
      LogGrows(before, c, Run(Initial(tokens), cs[..j + 1]).log[|Run(Initial(tokens), cs[..j]).log|]);
    } else {
      j := last;
      EndsByTick(before, c, id);
      ClosedFacts(before, c, id);
      FiredOnce(before, c, id);
    }
  }

  lemma ClosedFacts(s: State, c: Command, id: PosId)
    requires Inv(s) && ClosedBy(s, Apply(s, c), c, id)
    ensures |Apply(s, c).log| == |s.log| + 1 && id in s.tasks
  {
    hide Inv, Apply, Live, GivesPrice, PaidAt, InWindow;
    CloseIsJustified(s, id, c.oracle, c.usable, c.now);
  }

  // ----- what the index tells

  /** The row of a position that has ended says when and how it was closed: it is refunded exactly when
      its closing tick came at or after the refund time, and settled otherwise, with the payout and fee
      that left the pool in that tick; and it shows the price at which the oracle let it in. */
  lemma IndexTellsTheClose(
    tokens: map<TokenKey, u64>, cs: seq<Command>, positions: map<PosId, Row>, id: PosId) returns (i: nat, j: nat)
    requires Supply(tokens) <= U64_MAX && EndToEnd.Mirrors(Run(Initial(tokens), cs), positions, id)
    requires id in Run(Initial(tokens), cs).tasks && !Live(Run(Initial(tokens), cs), id)
    ensures id in positions && i < |cs| && cs[i].OpenAt? && cs[i].oracle.Holding?
    ensures positions[id].entryPrice == Some(cs[i].oracle.update.price)
    ensures positions[id].user == Some(cs[i].args.user) && positions[id].openedAt == Some(cs[i].now)
    ensures j < |cs| && cs[j].Tick? && cs[j].id == id
    ensures var r, before, after := positions[id], Run(Initial(tokens), cs[..j]), Run(Initial(tokens), cs[..j + 1]);
            && id in before.tasks && Live(before, id) && !Live(after, id)
            && (r.status == RefundedRow <==> cs[j].now >= before.tasks[id].created.expiresAt + 10)
            && (r.status == SettledRow <==> cs[j].now < before.tasks[id].created.expiresAt + 10)
            && r.payout.Some? && r.platformFee.Some?
            && after.Balance(Pool(id.marketId))
            == before.Balance(Pool(id.marketId)) - r.payout.value - r.platformFee.value
  {
    hide Apply, Supply, Inv, Live, Due, GivesPrice, PaidAt, InWindow, Run;
    var s := Run(Initial(tokens), cs);
    i := OpenedByCommand(tokens, cs, id);
    j := ClosedByTick(tokens, cs, id);
    var before, after, c := Run(Initial(tokens), cs[..j]), Run(Initial(tokens), cs[..j + 1]), cs[j];
    OracleHolds(cs[i].oracle, cs[i].now, Run(Initial(tokens), cs[..i]).markets[id.marketId].feedId);
    CloseIsJustified(before, id, c.oracle, c.usable, c.now);
    Runs.RunKeepsInv(tokens, cs);
    var e :| e in s.log && EndToEnd.PaidAs(positions[id], e, id);
    ClosedOnce(s, e, after.log[|before.log|], id);
  }

  lemma OracleHolds(oracle: OracleAccount, now: i64, feedId: nat)
    requires GivesPrice(oracle, now, feedId)
    ensures oracle.Holding?
  {
  }

  /** The journal has one close of a position. */
  lemma ClosedOnce(s: State, e: Event, e': Event, id: PosId)
    requires Inv(s) && e in s.log && e' in s.log && EndToEnd.IsClosed(e, id) && EndToEnd.IsClosed(e', id)
    ensures e == e'
  {
    hide Custody, Books, Risk, Shares, History, Supply, Live, CreatedCount, ClosedCount;
    var i :| 0 <= i < |s.log| && s.log[i] == e;
    var j :| 0 <= j < |s.log| && s.log[j] == e';
    EndToEnd.CountedOnce(s.log, id, if i <= j then i else j, if i <= j then j else i);
  }
}
