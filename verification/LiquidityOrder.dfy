/** A history that the client cannot read although chain and index are right: three instructions in
    one transaction, served in the order of the text of their log lines. */
module LiquidityOrder {
  import opened Rust
  import opened Protocol
  import opened Text
  import opened LogExtraction
  import opened Crawl
  import opened Projection
  import opened Storage
  import opened Ingestion
  import opened IngestionRuns
  import opened IngestionProgress
  import opened EndToEnd
  import opened HistoryFold
  import opened LiquidityApi
  import opened LiquidityIndex
  import opened Replay
  import opened Publication
  import IngestionGaps
  import Chain
  import LpTheorems
  import Lists
  import Runs
  import Inv = Invariants

  // ----- the run of the program

  const FUNDS := 200_000_000_000
  const PART := 50_000_000_000
  const TOKENS: map<Chain.TokenKey, u64> := map[Chain.Wallet(0) := FUNDS]

  const DEPOSITED := LiquidityDeposited(0, 0, FUNDS, FUNDS)
  const REQUESTED := WithdrawalRequested(0, 0, PART, 0)
  const EXECUTED := WithdrawalExecuted(0, 0, PART, PART)

  const SETUP: seq<Chain.Command> := [Chain.InitMarket(0, 0, true), Chain.InitLiquidity(0)]
  const COMMANDS: seq<Chain.Command> :=
    SETUP + [Chain.Deposit(0, 0, 0, FUNDS, 0)] + [Chain.Request(0, 0, PART, 0)] + [Chain.Execute(0, 0, 0)]

  function MarketWith(shares: u128): Market {
    Market(0, 0, shares, 0, 0, 0, 0, Open)
  }

  lemma SetUp()
    ensures var s := Chain.Run(Chain.Initial(TOKENS), SETUP);
            s == Chain.State(map[0 := MarketWith(0)], map[], map[0 := []], TOKENS, map[], [])
  {
    var none: seq<Chain.Command> := [];
    Runs.RunPush(Chain.Initial(TOKENS), none, Chain.InitMarket(0, 0, true));
    Runs.RunPush(Chain.Initial(TOKENS), none + [Chain.InitMarket(0, 0, true)], Chain.InitLiquidity(0));
    assert none + [Chain.InitMarket(0, 0, true)] + [Chain.InitLiquidity(0)] == SETUP;
  }

  /** An open market takes the deposit, the request and the execution one after the other. */
  lemma ChainAccepts()
    ensures var s := Chain.Run(Chain.Initial(TOKENS), COMMANDS);
            && s.log == [DEPOSITED, REQUESTED, EXECUTED]
            && LpTheorems.Held(s, 0, 0) == FUNDS - PART
            && 0 in s.markets && s.markets[0].mode == Open
    ensures Inv.Supply(TOKENS) <= U64_MAX
  {
    hide Chain.Run, Chain.Apply;
    SetUp();
    Runs.RunPush(Chain.Initial(TOKENS), SETUP, Chain.Deposit(0, 0, 0, FUNDS, 0));
    Runs.RunPush(Chain.Initial(TOKENS), SETUP + [Chain.Deposit(0, 0, 0, FUNDS, 0)], Chain.Request(0, 0, PART, 0));
    Runs.RunPush(Chain.Initial(TOKENS), SETUP + [Chain.Deposit(0, 0, 0, FUNDS, 0)] + [Chain.Request(0, 0, PART, 0)],
            Chain.Execute(0, 0, 0));
    Accepts(Chain.Run(Chain.Initial(TOKENS), SETUP));
    Inv.SupplyOfOne(Chain.Wallet(0), FUNDS);
  }

  function Stage(
    shares: u128, entry: seq<LiquidityEntry>, wallet: u64, pool: u64, log: seq<Event>): Chain.State
  {
    Chain.State(map[0 := MarketWith(shares)], map[], map[0 := entry],
                map[Chain.Wallet(0) := wallet, Chain.Pool(0) := pool], map[], log)
  }

  lemma SameFields(
    s: Chain.State, shares: u128, entry: seq<LiquidityEntry>, wallet: u64, pool: u64, log: seq<Event>)
    requires s.markets.Keys == {0} && s.markets[0] == MarketWith(shares) && s.positions == map[] && s.tasks == map[]
    requires s.liquidity.Keys == {0} && s.liquidity[0] == entry && s.log == log
    requires s.tokens.Keys == {Chain.Wallet(0), Chain.Pool(0)}
    requires s.tokens[Chain.Wallet(0)] == wallet && s.tokens[Chain.Pool(0)] == pool
    ensures s == Stage(shares, entry, wallet, pool, log)
  {
    var t := Stage(shares, entry, wallet, pool, log);
    assert s.markets == t.markets && s.liquidity == t.liquidity && s.tokens == t.tokens;
  }

  lemma AcceptsDeposit(s: Chain.State)
    requires s == Chain.State(map[0 := MarketWith(0)], map[], map[0 := []], TOKENS, map[], [])
    ensures Chain.Apply(s, Chain.Deposit(0, 0, 0, FUNDS, 0))
         == Stage(FUNDS, [LiquidityEntry(0, FUNDS, 0, 0)], 0, FUNDS, [DEPOSITED])
  {
    assert TOKENS[Chain.Wallet(0) := 0][Chain.Pool(0) := FUNDS] == map[Chain.Wallet(0) := 0, Chain.Pool(0) := FUNDS];
    assert Lists.EntryIndex([], 0) == None;
    SameFields(Chain.Apply(s, Chain.Deposit(0, 0, 0, FUNDS, 0)),
               FUNDS, [LiquidityEntry(0, FUNDS, 0, 0)], 0, FUNDS, [DEPOSITED]);
  }

  lemma AcceptsRequest(s: Chain.State)
    requires s == Stage(FUNDS, [LiquidityEntry(0, FUNDS, 0, 0)], 0, FUNDS, [DEPOSITED])
    ensures Chain.Apply(s, Chain.Request(0, 0, PART, 0))
         == Stage(FUNDS, [LiquidityEntry(0, FUNDS, PART, 0)], 0, FUNDS, [DEPOSITED, REQUESTED])
  {
    assert Lists.EntryIndex(s.liquidity[0], 0) == Some(0);
    SameFields(Chain.Apply(s, Chain.Request(0, 0, PART, 0)),
               FUNDS, [LiquidityEntry(0, FUNDS, PART, 0)], 0, FUNDS, [DEPOSITED, REQUESTED]);
  }

  lemma AcceptsExecution(s: Chain.State)
    requires s == Stage(FUNDS, [LiquidityEntry(0, FUNDS, PART, 0)], 0, FUNDS, [DEPOSITED, REQUESTED])
    ensures Chain.Apply(s, Chain.Execute(0, 0, 0))
         == Stage(FUNDS - PART, [LiquidityEntry(0, FUNDS - PART, 0, 0)], PART, FUNDS - PART,
                  [DEPOSITED, REQUESTED, EXECUTED])
  {
    hide Lists.RemoveEmptyMarket;
    assert Lists.EntryIndex(s.liquidity[0], 0) == Some(0);
    var left := LiquidityEntry(0, FUNDS - PART, 0, 0);
    KeepsEntry(left);
    assert [LiquidityEntry(0, FUNDS, PART, 0)][0 := left] == [left];
    SameFields(Chain.Apply(s, Chain.Execute(0, 0, 0)), FUNDS - PART, [LiquidityEntry(0, FUNDS - PART, 0, 0)],
               PART, FUNDS - PART, [DEPOSITED, REQUESTED, EXECUTED]);
  }

  lemma KeepsEntry(e: LiquidityEntry)
    requires e.shares > 0
    ensures Lists.RemoveEmptyMarket([e], 0) == [e]
  {
  }

  lemma Accepts(s: Chain.State)
    requires s == Chain.State(map[0 := MarketWith(0)], map[], map[0 := []], TOKENS, map[], [])
    ensures var s1 := Chain.Apply(s, Chain.Deposit(0, 0, 0, FUNDS, 0));
            var s2 := Chain.Apply(s1, Chain.Request(0, 0, PART, 0));
            var s3 := Chain.Apply(s2, Chain.Execute(0, 0, 0));
            && s3.log == [DEPOSITED, REQUESTED, EXECUTED]
            && LpTheorems.Held(s3, 0, 0) == FUNDS - PART
            && 0 in s3.markets && s3.markets[0].mode == Open
  {
    hide Chain.Apply;
    AcceptsDeposit(s);
    var s1 := Chain.Apply(s, Chain.Deposit(0, 0, 0, FUNDS, 0));
    AcceptsRequest(s1);
    var s2 := Chain.Apply(s1, Chain.Request(0, 0, PART, 0));
    AcceptsExecution(s2);
  }

  // ----- one transaction, indexed

  /** The transaction logs the three events on lines 6, 11 and 20. */
  ghost predicate LogsAll(tx: Tx, cfg: Config) {
    && Ingestible(tx, cfg)
    && EventsOf(tx, cfg) == [
         Observation(tx.signature, tx.slot, None, 6, DEPOSITED),
         Observation(tx.signature, tx.slot, None, 11, REQUESTED),
         Observation(tx.signature, tx.slot, None, 20, EXECUTED)]
  }

  function Steps(tx: Tx): seq<Step> {
    [Grow(tx)] + [Subscribe] + [StartCatchup] + [ReplayNext(0)] + [FinishCatchup]
  }

  /** A crawl over a single transaction, without a cursor, collects it. */
  lemma CrawlsOne(w: World, cfg: Config)
    requires |w.history| == 1 && w.db.cursor == None
    ensures WindowStart(w, cfg) == 0 && !WouldBail(w, cfg)
  {
  }

  lemma IndexesOne(tx: Tx, cfg: Config)
    requires LogsAll(tx, cfg)
    ensures var w := RunSteps(FRESH, Steps(tx), cfg);
            && w.history == [tx] && w.start == Some(0) && CaughtUp(w)
            && ReplayTx(EMPTY_DB, tx, cfg, 0) == Ok(w.db)
    ensures NeverSkips(FRESH, Steps(tx), cfg)
  {
    hide ReplayTx, WindowStart, WouldBail, RunSteps, EventsOf;
    var none: seq<Step> := [];
    var w1 := FRESH.(history := [tx]);
    var w2 := w1.(session := Subscribed(1));
    IngestionGaps.FreshIsCovered(cfg);
    Grows(tx, cfg);
    AllFits(tx, cfg);
    ReplaySucceedsExactly(EMPTY_DB, tx, cfg, 0);
    CrawlsOne(w2, cfg);
    IngestionGaps.RunPush(none, Grow(tx), cfg);
    assert none + [Grow(tx)] == [Grow(tx)];
    IngestionGaps.RunPush([Grow(tx)], Subscribe, cfg);
    IngestionGaps.RunPush([Grow(tx)] + [Subscribe], StartCatchup, cfg);
    IngestionGaps.RunPush([Grow(tx)] + [Subscribe] + [StartCatchup], ReplayNext(0), cfg);
    IngestionGaps.RunPush([Grow(tx)] + [Subscribe] + [StartCatchup] + [ReplayNext(0)], FinishCatchup, cfg);
    forall k | 0 <= k < |Steps(tx)| && Steps(tx)[k].StartCatchup?
      ensures NothingSkipped(RunSteps(FRESH, Steps(tx)[..k], cfg), cfg)
    {
      assert k == 2 && Steps(tx)[..k] == [Grow(tx)] + [Subscribe];
    }
  }

  lemma Grows(tx: Tx, cfg: Config)
    ensures Next(FRESH, Grow(tx), cfg) == FRESH.(history := [tx])
  {
    var none: seq<Tx> := [];
    assert none + [tx] == [tx];
  }

  lemma AllFits(tx: Tx, cfg: Config)
    requires LogsAll(tx, cfg)
    ensures Storable(tx, cfg)
  {
    hide EventsOf;
  }

  lemma PublishesAll(tx: Tx, cfg: Config)
    requires LogsAll(tx, cfg)
    ensures Emission([tx], cfg) == EventsOf(tx, cfg)
    ensures Publishes([tx], cfg, [DEPOSITED, REQUESTED, EXECUTED])
  {
    hide EventsOf;
    var none: seq<Tx> := [];
    assert [tx][..0] == none && Emission(none, cfg) == [];
    assert Emission([tx], cfg) == [] + EventsOf(tx, cfg) == EventsOf(tx, cfg);
    var log := [DEPOSITED, REQUESTED, EXECUTED];
    assert log[..2] == [DEPOSITED, REQUESTED] && log[..2][..1] == [DEPOSITED] && [DEPOSITED][..0] == [];
    assert Stored([DEPOSITED]) == [DEPOSITED];
    assert Stored([DEPOSITED, REQUESTED]) == [DEPOSITED, REQUESTED];
    assert Stored(log) == log;
  }

  /** Everything that one replay stores carries the transaction's own block time. */
  lemma OneTime(tx: Tx, cfg: Config, db: Db)
    requires tx.slot <= I64_MAX && ReplayTx(EMPTY_DB, tx, cfg, 0) == Ok(db)
    ensures forall d :: d in db.delivered ==> d.o.blockTime == tx.blockTime
  {
    hide ReplayTx;
    StoredTimes(EMPTY_DB, tx, cfg, 0, 0);
  }

  lemma RowsHaveOneTime(db: Db, time: Option<i64>)
    requires Recorded(db) && forall d :: d in db.delivered ==> d.o.blockTime == time
    ensures forall k :: k in db.liquidity ==> db.liquidity[k].occurredAt == time
  {
    hide AmountsFit, KindOf, IsLiquidity;
    forall k | k in db.liquidity
      ensures db.liquidity[k].occurredAt == time
    {
      assert Written(db, k, db.liquidity[k], RowOf);
      var d :| d in db.delivered && KeyOf(d.o) == k && RowOf(d.o) == db.liquidity[k];
    }
  }

  // ----- the answer

  /** As text, line 11 comes before line 20 and line 20 before line 6. */
  lemma TextOrder()
    ensures TextLess(PathText(11), PathText(20)) && TextLess(PathText(20), PathText(6))
  {
    assert Decimal(11) == "11" && Decimal(20) == "20" && Decimal(6) == "6";
    PathOrder(6, 11);
    PathOrder(6, 20);
    SamePathOrder(11, 20);
  }

  function ServedItems(signature: Signature, time: Option<i64>): seq<LiquidityItem> {
    [ LiquidityItem(EventKey(signature, 11, Requested), EventRow(REQUESTED, time)),
      LiquidityItem(EventKey(signature, 20, Executed), EventRow(EXECUTED, time)),
      LiquidityItem(EventKey(signature, 6, Deposited), EventRow(DEPOSITED, time))]
  }

  lemma ServedAscend(signature: Signature, time: Option<i64>)
    ensures Ascending(ServedItems(signature, time))
  {
    hide TextLess, PathText;
    TextOrder();
    TextLessTransitive(PathText(11), PathText(20), PathText(6));
  }

  /** The only answer there is lists the request first, then the execution, then the deposit. */
  lemma ServedOrder(tx: Tx, cfg: Config, table: map<EventKey, EventRow>, newestFirst: seq<LiquidityItem>)
    requires LogsAll(tx, cfg) && Tabulates(RowEvents(table), EventsOf(tx, cfg), IsLiquidity)
    requires forall k :: k in table ==> table[k].occurredAt == tx.blockTime
    requires Answers(newestFirst, table, 0, 0)
    ensures Reversed(newestFirst) == ServedItems(tx.signature, tx.blockTime)
  {
    hide EventsOf, Ascending;
    var em, items := EventsOf(tx, cfg), ServedItems(tx.signature, tx.blockTime);
    assert forall k :: k in table ==> k in RowEvents(table) && RowEvents(table)[k] == table[k].event;
    assert KeyOf(em[0]) == items[2].key && KeyOf(em[1]) == items[0].key && KeyOf(em[2]) == items[1].key;
    ServedAscend(tx.signature, tx.blockTime);
    assert ListsRows(items, table, 0, 0);
    SameRows(items, Reversed(newestFirst), table, 0, 0);
    SortedOnce(items, Reversed(newestFirst));
  }

  lemma ShownOutOfOrder(signature: Signature, time: Option<i64>)
    ensures Fold(Shown(ServedItems(signature, time), 0, 0)) == None
  {
    hide Fold;
    var log := [REQUESTED, EXECUTED, DEPOSITED];
    var events := [IndexedEvent(RequestedKind, None, PART), IndexedEvent(ExecutedKind, Some(PART), PART),
                   IndexedEvent(DepositKind, Some(FUNDS), FUNDS)];
    assert ItemEvents(ServedItems(signature, time)) == log;
    assert log[..2] == [REQUESTED, EXECUTED] && log[..2][..1] == [REQUESTED] && [REQUESTED][..0] == [];
    assert HistoryOf([REQUESTED], 0, 0) == events[..1];
    assert HistoryOf([REQUESTED, EXECUTED], 0, 0) == events[..2];
    assert HistoryOf(log, 0, 0) == events;
    assert events[..2][..1] == events[..1] && events[..1][..0] == [];
    assert Net(events[..1]) == 0;
    assert Net(events[..2]) == Net(events[..2][..1]) + Delta(events[..2][1]) == -PART;
    FoldSucceedsExactly(events);
  }

  /** The client fails on a correct index. The program accepts a deposit, a request and an execution in
      one transaction; their rows share time and signature, so the text of the log lines orders them,
      and whichever answer the API gives, the client meets the execution before the deposit and throws,
      although the user holds shares. */
  lemma ApiOrderBreaksSummary(tx: Tx, cfg: Config)
    requires LogsAll(tx, cfg)
    ensures var s, w := Chain.Run(Chain.Initial(TOKENS), COMMANDS), RunSteps(FRESH, Steps(tx), cfg);
            && Publishes(w.history, cfg, s.log) && NeverSkips(FRESH, Steps(tx), cfg)
            && w.start == Some(0) && CaughtUp(w)
            && LpTheorems.Held(s, 0, 0) == FUNDS - PART
            && (exists newestFirst :: Answers(newestFirst, w.db.liquidity, 0, 0))
            && (forall newestFirst :: Answers(newestFirst, w.db.liquidity, 0, 0) ==>
                  Fold(Reversed(Shown(newestFirst, 0, 0))) == None)
  {
    hide RunSteps, Chain.Run, Chain.Apply, NeverSkips, EventsOf, Emission, Tabulates, Answers, Recorded, Delivered,
        Fold,
         Shown, LpTheorems.Held, Inv.Supply, Publishes, OneRowPerLine, ReplayTx;
    var s, w := Chain.Run(Chain.Initial(TOKENS), COMMANDS), RunSteps(FRESH, Steps(tx), cfg);
    ChainAccepts();
    IndexesOne(tx, cfg);
    PublishesAll(tx, cfg);
    PublishedIsServable([tx], cfg, [DEPOSITED, REQUESTED, EXECUTED]);
    PipelineDelivers(Steps(tx), cfg);
    RunsAreRecorded(Steps(tx), cfg);
    TablesHoldEachOnce(w.db, w.history, cfg);
    LinesGiveRows(w.db.liquidity, EventsOf(tx, cfg));
    OneTime(tx, cfg, w.db);
    RowsHaveOneTime(w.db, tx.blockTime);
    var answer := AnswerExists(w.db.liquidity, 0, 0);
    forall newestFirst | Answers(newestFirst, w.db.liquidity, 0, 0)
      ensures Fold(Reversed(Shown(newestFirst, 0, 0))) == None
    {
      ServedOrder(tx, cfg, w.db.liquidity, newestFirst);
      ShownReversed(newestFirst, 0, 0);
      ShownOutOfOrder(tx.signature, tx.blockTime);
    }
  }

  lemma PublishedIsServable(h: seq<Tx>, cfg: Config, log: seq<Event>)
    requires Publishes(h, cfg, log)
    ensures Servable(h, cfg)
  {
  }

  // ----- such a transaction can be printed

  /** Lines of free text. */
  function Remarks(n: nat): seq<Item> {
    if n == 0 then [] else [Text("-")] + Remarks(n - 1)
  }

  lemma OneRemark(rest: seq<Item>, target: string, index: nat)
    requires AllPrintable(rest)
    ensures AllPrintable([Text("-")] + rest)
    ensures ItemsPayloads([Text("-")] + rest, true, target, index) == ItemsPayloads(rest, true, target, index + 1)
  {
    var items := [Text("-")] + rest;
    assert items[0] == Text("-") && items[1..] == rest;
    assert PrintableItem(items[0]);
    assert ItemPayloads(items[0], true, target, index) == [] && |PrintItem(items[0])| == 1;
  }

  lemma {:induction false} SkipRemarks(n: nat, rest: seq<Item>, target: string, index: nat)
    requires AllPrintable(rest)
    ensures AllPrintable(Remarks(n) + rest)
    ensures ItemsPayloads(Remarks(n) + rest, true, target, index) == ItemsPayloads(rest, true, target, index + n)
  {
    hide AllPrintable, ItemsPayloads;
    if n == 0 {
      assert Remarks(n) + rest == rest;
    } else {
      SkipRemarks(n - 1, rest, target, index + 1);
      OneRemark(Remarks(n - 1) + rest, target, index);
      assert Remarks(n) + rest == [Text("-")] + (Remarks(n - 1) + rest);
    }
  }

  lemma OneData(payload: string, rest: seq<Item>, target: string, index: nat)
    requires AllPrintable(rest) && NoSpace(payload) && payload != "success"
    ensures AllPrintable([Data(payload)] + rest)
    ensures ItemsPayloads([Data(payload)] + rest, true, target, index)
         == [(index, payload)] + ItemsPayloads(rest, true, target, index + 1)
  {
    hide Imitates;
    OneWordPayloads(payload);
    var items := [Data(payload)] + rest;
    assert items[0] == Data(payload) && items[1..] == rest;
    assert |PrintItem(items[0])| == 1;
  }

  function DecodeThree(payload: string): Decoded {
    if payload == "D" then Decoded(DEPOSITED)
    else if payload == "R" then Decoded(REQUESTED)
    else if payload == "E" then Decoded(EXECUTED)
    else NoEvent
  }

  /** The failing input exists: a call that prints the three data lines among remarks. */
  lemma SuchALogExists() returns (tx: Tx, cfg: Config)
    ensures LogsAll(tx, cfg)
  {
    hide AllPrintable, ItemsPayloads, PrintCalls, Remarks, Scan;
    cfg := Config("P", DecodeThree, 0, 1);
    var none: seq<Item> := [];
    NothingPrinted("P", 21);
    var last := [Data("E")] + none;
    OneData("E", none, "P", 20);
    var third := Remarks(8) + last;
    SkipRemarks(8, last, "P", 12);
    var second := [Data("R")] + third;
    OneData("R", third, "P", 11);
    var gap := Remarks(4) + second;
    SkipRemarks(4, second, "P", 7);
    var first := [Data("D")] + gap;
    OneData("D", gap, "P", 6);
    var items := Remarks(5) + first;
    SkipRemarks(5, first, "P", 1);
    var frame := Frame("P", "1", items, Succeeded);
    tx := Tx(7, 1, false, true, None, PrintCalls([frame]));
    var payloads := [(6, "D"), (11, "R"), (20, "E")];
    OneCall(frame, "P", payloads);
    PrintedObservations(tx, [frame], cfg);
    ObservedThree(tx, payloads);
  }

  lemma NothingPrinted(target: string, index: nat)
    ensures AllPrintable([]) && ItemsPayloads([], true, target, index) == []
  {
  }

  lemma OneCall(frame: Frame, target: string, payloads: seq<(nat, string)>)
    requires frame.program == target && NoSpace(target) && frame.end.Succeeded? && AllPrintable(frame.items)
    requires ItemsPayloads(frame.items, true, target, 1) == payloads
    ensures Printable(frame) && CallPayloads([frame], target, 0) == payloads
  {
    hide AllPrintable, ItemsPayloads, Print;
    assert [frame][1..] == [];
    assert payloads + [] == payloads;
  }

  lemma ObservedThree(tx: Tx, payloads: seq<(nat, string)>)
    requires tx.slot <= I64_MAX && payloads == [(6, "D"), (11, "R"), (20, "E")]
    ensures Observe(tx.signature, tx.slot, None, payloads, DecodeThree) == [
              Observation(tx.signature, tx.slot, None, 6, DEPOSITED),
              Observation(tx.signature, tx.slot, None, 11, REQUESTED),
              Observation(tx.signature, tx.slot, None, 20, EXECUTED)]
  {
    assert payloads[..2] == [(6, "D"), (11, "R")] && payloads[..2][..1] == [(6, "D")] && payloads[..2][..1][..0] == [];
    assert Observe(tx.signature, tx.slot, None, [(6, "D")], DecodeThree)
        == [Observation(tx.signature, tx.slot, None, 6, DEPOSITED)];
    assert Observe(tx.signature, tx.slot, None, payloads[..2], DecodeThree)
        == [Observation(tx.signature, tx.slot, None, 6, DEPOSITED),
            Observation(tx.signature, tx.slot, None, 11, REQUESTED)];
  }
}
