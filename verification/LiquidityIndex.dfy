/** The event tables of a caught-up indexer hold each event of the chain exactly once. What the client
    makes of them depends on the order in which the API serves them. */
module LiquidityIndex {
  import opened Rust
  import opened Protocol
  import opened LogExtraction
  import opened Crawl
  import opened Projection
  import opened Storage
  import opened Ingestion
  import opened IngestionRuns
  import opened IngestionProgress
  import opened EndToEnd
  import opened HistoryFold
  import opened LiquidityApi
  import IngestionGaps
  import Chain
  import LpTheorems
  import Inv = Invariants

  // ----- no two observations of a history share a key

  /** Payloads come with increasing line indices. */
  predicate IndicesAscend(payloads: seq<(nat, string)>) {
    forall i, j :: 0 <= i < j < |payloads| ==> payloads[i].0 < payloads[j].0
  }

  lemma {:induction false} ScanAscends(logs: seq<string>, target: string, stack: seq<string>, index: nat)
    ensures var r := Scan(logs, target, stack, index).0;
            IndicesAscend(r) && forall i :: 0 <= i < |r| ==> index <= r[i].0
  {
    hide Classify;
    if logs != [] {
      ScanAscends(logs[1..], target, Move(stack, logs[0]), index + 1);
    }
  }

  predicate DistinctPaths(os: seq<Observation>) {
    forall i, j :: 0 <= i < j < |os| ==> os[i].path < os[j].path
  }

  lemma {:induction false} ObserveAscends(
    signature: Signature, slot: i64, payloads: seq<(nat, string)>, decode: string -> Decoded)
    requires IndicesAscend(payloads)
    ensures var os := Observe(signature, slot, None, payloads, decode);
            DistinctPaths(os) && forall o :: o in os ==> exists p :: p in payloads && p.0 == o.path
  {
    if payloads != [] {
      var before := payloads[..|payloads| - 1];
      ObserveAscends(signature, slot, before, decode);
      var rest := Observe(signature, slot, None, before, decode);
      forall i | 0 <= i < |rest|
        ensures rest[i].path < payloads[|payloads| - 1].0
      {
        assert rest[i] in rest;
        var p :| p in before && p.0 == rest[i].path;
        var k :| 0 <= k < |before| && before[k] == p;
      }
      assert forall p :: p in before ==> p in payloads;
      assert payloads[|payloads| - 1] in payloads;
    }
  }

  lemma EventPaths(tx: Tx, cfg: Config)
    ensures DistinctPaths(LandedEvents(tx, cfg))
  {
    hide Scan;
    if tx.slot <= I64_MAX {
      ScanAscends(tx.logs, cfg.target, [], 0);
      ObserveAscends(tx.signature, tx.slot, Scan(tx.logs, cfg.target, [], 0).0, cfg.decode);
    }
  }

  /** Within one transaction the observations come in the order of the log lines. */
  ghost predicate LinesAscend(os: seq<Observation>) {
    forall i, j :: 0 <= i < j < |os| && os[i].signature == os[j].signature ==> os[i].path < os[j].path
  }

  lemma {:induction false} EmissionLines(h: seq<Tx>, cfg: Config)
    requires DistinctSignatures(h)
    ensures LinesAscend(Emission(h, cfg))
    ensures forall o :: o in Emission(h, cfg) ==> exists i :: 0 <= i < |h| && h[i].signature == o.signature
  {
    hide LandedEvents, KindOf;
    if h != [] {
      var last := |h| - 1;
      EmissionLines(h[..last], cfg);
      EventPaths(h[last], cfg);
      LandedSigned(h[last], cfg);
      var before, events := Emission(h[..last], cfg), LandedEvents(h[last], cfg);
      forall i, j | 0 <= i < |before| && 0 <= j < |events|
        ensures before[i].signature != events[j].signature
      {
        assert before[i] in before && events[j] in events;
        var k :| 0 <= k < last && h[..last][k].signature == before[i].signature;
        assert h[k].signature != h[last].signature;
      }
      assert forall k :: 0 <= k < last ==> h[..last][k] == h[k];
    }
  }

  lemma LandedSigned(tx: Tx, cfg: Config)
    ensures forall o :: o in LandedEvents(tx, cfg) ==> o.signature == tx.signature
  {
    hide EventsOf;
    IngestionGaps.EventsSigned(tx, cfg);
  }

  // ----- the tables

  /** The table holds exactly the observations of the wanted kinds, each under its own key. */
  ghost predicate Tabulates(table: map<EventKey, Event>, os: seq<Observation>, wanted: Kind -> bool) {
    && LinesAscend(os)
    && (forall i :: 0 <= i < |os| && wanted(KindOf(os[i].event)) ==>
          KeyOf(os[i]) in table && table[KeyOf(os[i])] == os[i].event)
    && (forall k :: k in table ==> wanted(k.kind) && exists i :: 0 <= i < |os| && KeyOf(os[i]) == k)
  }

  lemma SameEventKey()
    ensures forall a, b :: SameEvent(a, b) ==> KeyOf(a) == KeyOf(b) && a.event == b.event
  {
    forall a: Observation, b: Observation | SameEvent(a, b)
      ensures KeyOf(a) == KeyOf(b) && a.event == b.event
    {
      assert a.(blockTime := None).signature == b.(blockTime := None).signature;
      assert a.(blockTime := None).path == b.(blockTime := None).path;
      assert a.(blockTime := None).event == b.(blockTime := None).event;
    }
  }

  /** The events of a table whose rows carry times as well. */
  function RowEvents(rows: map<EventKey, EventRow>): map<EventKey, Event> {
    map k | k in rows :: rows[k].event
  }

  lemma RowsKeepEvents(db: Db, rows: map<EventKey, EventRow>, wanted: Kind -> bool)
    requires Kept(db, rows, wanted, RowOf)
    ensures Kept(db, RowEvents(rows), wanted, EventOf)
  {
    hide KindOf;
    forall k | k in rows
      ensures Written(db, k, rows[k].event, EventOf)
    {
      var d :| d in db.delivered && KeyOf(d.o) == k && RowOf(d.o) == rows[k];
    }
  }

  /** A row that a delivered observation wrote is the row of an emitted one. */
  lemma WrittenIsEmitted(db: Db, em: seq<Observation>, k: EventKey, e: Event)
    requires Written(db, k, e, EventOf) && forall d :: d in db.delivered ==> d.o.(blockTime := None) in em
    ensures exists i :: 0 <= i < |em| && KeyOf(em[i]) == k && em[i].event == e
  {
    hide KindOf;
    var d :| d in db.delivered && KeyOf(d.o) == k && d.o.event == e;
    var o := d.o.(blockTime := None);
    var i :| 0 <= i < |em| && em[i] == o;
  }

  lemma KeptTabulates(db: Db, table: map<EventKey, Event>, em: seq<Observation>, wanted: Kind -> bool)
    requires Kept(db, table, wanted, EventOf) && LinesAscend(em)
    requires forall d :: d in db.delivered ==> d.o.(blockTime := None) in em
    requires forall o :: o in em ==> Has(db, o)
    ensures Tabulates(table, em, wanted)
  {
    hide KindOf, Written;
    SameEventKey();
    forall i | 0 <= i < |em| && wanted(KindOf(em[i].event))
      ensures KeyOf(em[i]) in table && table[KeyOf(em[i])] == em[i].event
    {
      assert em[i] in em && Has(db, em[i]);
      var d :| d in db.delivered && SameEvent(d.o, em[i]);
      var k := KeyOf(d.o);
      WrittenIsEmitted(db, em, k, table[k]);
      var j :| 0 <= j < |em| && KeyOf(em[j]) == k && em[j].event == table[k];
      assert j == i;
    }
    forall k | k in table
      ensures exists i :: 0 <= i < |em| && KeyOf(em[i]) == k
    {
      WrittenIsEmitted(db, em, k, table[k]);
    }
  }

  /** Every event the chain published is in its table exactly once, and nothing else is. */
  lemma TablesHoldEachOnce(db: Db, h: seq<Tx>, cfg: Config)
    requires Recorded(db) && Delivered(db, h, cfg) && DistinctSignatures(h)
    ensures Tabulates(db.instructions, Emission(h, cfg), IsAny)
    ensures Tabulates(RowEvents(db.liquidity), Emission(h, cfg), IsLiquidity)
    ensures Tabulates(RowEvents(db.fees), Emission(h, cfg), IsFee)
  {
    hide Emission, IsLiquidity, IsFee, KindOf, Projected, DistinctSignatures, Tabulates, LinesAscend, Has, Written,
        Kept,
         RowEvents;
    var em := Emission(h, cfg);
    EmissionLines(h, cfg);
    RowsKeepEvents(db, db.liquidity, IsLiquidity);
    RowsKeepEvents(db, db.fees, IsFee);
    KeptTabulates(db, db.instructions, em, IsAny);
    KeptTabulates(db, RowEvents(db.liquidity), em, IsLiquidity);
    KeptTabulates(db, RowEvents(db.fees), em, IsFee);
  }

  // ----- the user's rows in the order of the history

  function HistoryRows(
    table: map<EventKey, EventRow>, os: seq<Observation>, u: Pubkey, m: MarketId): seq<LiquidityItem>
  {
    if os == [] then []
    else
      var k := KeyOf(os[|os| - 1]);
      HistoryRows(table, os[..|os| - 1], u, m) + if Selected(table, u, m, k) then [LiquidityItem(k, table[k])] else []
  }

  function ItemEvents(items: seq<LiquidityItem>): seq<Event> {
    seq(|items|, i requires 0 <= i < |items| => items[i].row.event)
  }

  /** What the client is shown of some rows, in the order of the rows. */
  function Shown(items: seq<LiquidityItem>, u: Pubkey, m: MarketId): seq<IndexedEvent> {
    HistoryOf(ItemEvents(items), u, m)
  }

  /** Rows of one transaction come in the order of their log lines. */
  ghost predicate RowLinesAscend(items: seq<LiquidityItem>) {
    forall i, j :: 0 <= i < j < |items| && items[i].key.signature == items[j].key.signature ==>
      items[i].key.path < items[j].key.path
  }

  ghost predicate FromFirst(items: seq<LiquidityItem>, os: seq<Observation>, n: nat)
    requires n <= |os|
  {
    forall x :: x in items ==> exists i :: 0 <= i < n && KeyOf(os[i]) == x.key
  }

  lemma NoRowsAscend()
    ensures RowLinesAscend([])
  {
  }

  /** One more row, of the next observation. */
  lemma RowAdded(before: seq<LiquidityItem>, x: LiquidityItem, os: seq<Observation>, n: nat)
    requires 0 < n <= |os| && KeyOf(os[n - 1]) == x.key && LinesAscend(os)
    requires FromFirst(before, os, n - 1) && RowLinesAscend(before)
    ensures FromFirst(before + [x], os, n) && RowLinesAscend(before + [x])
  {
    hide KindOf;
    forall i | 0 <= i < |before| && before[i].key.signature == x.key.signature
      ensures before[i].key.path < x.key.path
    {
      assert before[i] in before;
      var j :| 0 <= j < n - 1 && KeyOf(os[j]) == before[i].key;
    }
  }

  /** The rows found along the first n observations. */
  lemma {:induction false} RowsSoFar(
    table: map<EventKey, EventRow>, os: seq<Observation>, n: nat, u: Pubkey, m: MarketId)
    requires n <= |os| && Tabulates(RowEvents(table), os, IsLiquidity)
    ensures var rows := HistoryRows(table, os[..n], u, m);
            && FromFirst(rows, os, n) && RowLinesAscend(rows)
            && (forall x :: x in rows ==> Selected(table, u, m, x.key) && x.row == table[x.key])
            && (forall i :: 0 <= i < n && Selected(table, u, m, KeyOf(os[i])) ==>
                  LiquidityItem(KeyOf(os[i]), table[KeyOf(os[i])]) in rows)
            && Shown(rows, u, m) == HistoryOf(EventsIn(os[..n]), u, m)
  {
    hide Tabulates, HistoryOf, Selected, KindOf, LinesAscend, RowLinesAscend;
    if n == 0 {
      assert ItemEvents([]) == EventsIn(os[..0]);
      NoRowsAscend();
    } else {
      RowsSoFar(table, os, n - 1, u, m);
      var before := HistoryRows(table, os[..n - 1], u, m);
      var k := KeyOf(os[n - 1]);
      assert os[..n][..n - 1] == os[..n - 1];
      assert EventsIn(os[..n]) == EventsIn(os[..n - 1]) + [os[n - 1].event];
      HistoryPush(EventsIn(os[..n - 1]), os[n - 1].event, u, m);
      SelectedEvent(table, os, n - 1, u, m);
      LinesOf(table, os);
      assert before + [] == before;
      assert HistoryOf(EventsIn(os[..n - 1]), u, m) + [] == HistoryOf(EventsIn(os[..n - 1]), u, m);
      if Selected(table, u, m, k) {
        var x := LiquidityItem(k, table[k]);
        assert ItemEvents(before + [x]) == ItemEvents(before) + [x.row.event];
        HistoryPush(ItemEvents(before), x.row.event, u, m);
        RowAdded(before, x, os, n);
      }
    }
  }

  lemma LinesOf(table: map<EventKey, EventRow>, os: seq<Observation>)
    requires Tabulates(RowEvents(table), os, IsLiquidity)
    ensures LinesAscend(os)
  {
  }

  /** An observation is selected exactly when its event concerns the user and market. */
  lemma SelectedEvent(table: map<EventKey, EventRow>, os: seq<Observation>, i: nat, u: Pubkey, m: MarketId)
    requires i < |os| && Tabulates(RowEvents(table), os, IsLiquidity)
    ensures var k := KeyOf(os[i]);
            if Selected(table, u, m, k) then k in table && table[k].event == os[i].event
            else Indexed(os[i].event, u, m) == []
  {
    hide LinesAscend;
    var k := KeyOf(os[i]);
    assert k in table ==> RowEvents(table)[k] == table[k].event;
    assert k in table ==> k in RowEvents(table) && IsLiquidity(KindOf(os[i].event));
  }

  /** They are the rows that any answer lists, each once. */
  lemma RowsAreListed(table: map<EventKey, EventRow>, os: seq<Observation>, u: Pubkey, m: MarketId)
    requires Tabulates(RowEvents(table), os, IsLiquidity)
    ensures var rows := HistoryRows(table, os, u, m);
            && ListsRows(rows, table, u, m) && RowLinesAscend(rows)
            && Shown(rows, u, m) == HistoryOf(EventsIn(os), u, m)
  {
    hide HistoryOf, Selected, KindOf, HistoryRows, LinesAscend;
    RowsSoFar(table, os, |os|, u, m);
    assert os[..|os|] == os;
    assert forall k :: k in table ==> k in RowEvents(table);
    forall k | Selected(table, u, m, k)
      ensures k in table && LiquidityItem(k, table[k]) in HistoryRows(table, os, u, m)
    {
      SelectedIsRow(table, u, m, k);
      var i :| 0 <= i < |os| && KeyOf(os[i]) == k;
    }
  }

  lemma LinesGiveRows(table: map<EventKey, EventRow>, os: seq<Observation>)
    requires Tabulates(RowEvents(table), os, IsLiquidity)
    ensures OneRowPerLine(table)
  {
    hide KindOf, IsLiquidity;
    forall k | k in table
      ensures exists i :: 0 <= i < |os| && KeyOf(os[i]) == k
    {
      assert k in RowEvents(table);
    }
  }

  lemma SelectedIsRow(table: map<EventKey, EventRow>, u: Pubkey, m: MarketId, k: EventKey)
    requires Selected(table, u, m, k)
    ensures k in table
  {
  }

  // ----- two orders of the same rows

  ghost predicate NoneTwice<T(!new)>(s: seq<T>) {
    forall i, j :: 0 <= i < j < |s| ==> s[i] != s[j]
  }

  lemma {:induction false} CountOnce<T(!new)>(s: seq<T>, x: T)
    requires NoneTwice(s)
    ensures multiset(s)[x] == if x in s then 1 else 0
  {
    if s != [] {
      var front, last := s[..|s| - 1], s[|s| - 1];
      CountOnce(front, x);
      assert s == front + [last];
      assert last !in front;
    }
  }

  lemma SameMembers<T(!new)>(a: seq<T>, b: seq<T>)
    requires NoneTwice(a) && NoneTwice(b) && forall x :: x in a <==> x in b
    ensures multiset(a) == multiset(b)
  {
    forall x: T
      ensures multiset(a)[x] == multiset(b)[x]
    {
      CountOnce(a, x);
      CountOnce(b, x);
    }
  }

  lemma {:induction false} HistoryConcat(a: seq<Event>, b: seq<Event>, u: Pubkey, m: MarketId)
    ensures HistoryOf(a + b, u, m) == HistoryOf(a, u, m) + HistoryOf(b, u, m)
  {
    hide Indexed;
    if b == [] {
      assert a + b == a;
    } else {
      assert (a + b)[..|a + b| - 1] == a + b[..|b| - 1];
      HistoryConcat(a, b[..|b| - 1], u, m);
    }
  }

  lemma ShownConcat(a: seq<LiquidityItem>, b: seq<LiquidityItem>, u: Pubkey, m: MarketId)
    ensures Shown(a + b, u, m) == Shown(a, u, m) + Shown(b, u, m)
  {
    hide HistoryOf;
    assert ItemEvents(a + b) == ItemEvents(a) + ItemEvents(b);
    HistoryConcat(ItemEvents(a), ItemEvents(b), u, m);
  }

  /** Whatever the order of the rows, the client is shown the same events. */
  lemma {:induction false} ShownByMultiset(a: seq<LiquidityItem>, b: seq<LiquidityItem>, u: Pubkey, m: MarketId)
    requires multiset(a) == multiset(b)
    ensures multiset(Shown(a, u, m)) == multiset(Shown(b, u, m))
    decreases |a|
  {
    hide Shown;
    assert |multiset(a)| == |a| && |multiset(b)| == |b|;
    if a == [] {
      assert b == [];
    } else {
      var front, x := a[..|a| - 1], a[|a| - 1];
      assert a == front + [x];
      assert x in multiset(b);
      var j :| 0 <= j < |b| && b[j] == x;
      var rest := b[..j] + b[j + 1..];
      assert b == b[..j] + [x] + b[j + 1..];
      assert multiset(rest) == multiset(b) - multiset{x} == multiset(front);
      ShownByMultiset(front, rest, u, m);
      ShownConcat(front, [x], u, m);
      ShownConcat(b[..j] + [x], b[j + 1..], u, m);
      ShownConcat(b[..j], [x], u, m);
      ShownConcat(b[..j], b[j + 1..], u, m);
    }
  }

  /** Showing the rows backwards shows the events backwards. */
  lemma {:induction false} ShownReversed(items: seq<LiquidityItem>, u: Pubkey, m: MarketId)
    ensures Reversed(Shown(items, u, m)) == Shown(Reversed(items), u, m)
  {
    hide Shown;
    if items == [] {
      ShownNothing(u, m);
      assert Reversed(items) == items;
    } else {
      var front, x := items[..|items| - 1], items[|items| - 1];
      ShownReversed(front, u, m);
      assert items == front + [x] && Reversed(items) == [x] + Reversed(front);
      ShownConcat(front, [x], u, m);
      ShownConcat([x], Reversed(front), u, m);
      ShownOne(x, u, m);
      assert Reversed(Shown(front, u, m) + Shown([x], u, m)) == Shown([x], u, m) + Reversed(Shown(front, u, m));
    }
  }

  lemma ShownNothing(u: Pubkey, m: MarketId)
    ensures Shown([], u, m) == [] && Reversed(Shown([], u, m)) == []
  {
  }

  lemma ShownOne(x: LiquidityItem, u: Pubkey, m: MarketId)
    ensures |Shown([x], u, m)| <= 1
  {
    assert ItemEvents([x]) == [x.row.event];
    HistoryPush([], x.row.event, u, m);
    assert [] + [x.row.event] == [x.row.event];
  }

  lemma {:induction false} HistoryIsPriced(log: seq<Event>, u: Pubkey, m: MarketId)
    ensures Priced(HistoryOf(log, u, m))
  {
    if log != [] {
      HistoryIsPriced(log[..|log| - 1], u, m);
    }
  }

  lemma RowsOnce(items: seq<LiquidityItem>)
    ensures RowLinesAscend(items) ==> NoneTwice(items)
    ensures Ascending(items) ==> NoneTwice(items)
  {
    hide Earlier;
    if Ascending(items) {
      forall i, j | 0 <= i < j < |items|
        ensures items[i] != items[j]
      {
        EarlierTotal(items[i], items[j]);
      }
    }
  }

  lemma SameRows(a: seq<LiquidityItem>, b: seq<LiquidityItem>, table: map<EventKey, EventRow>, u: Pubkey, m: MarketId)
    requires ListsRows(a, table, u, m) && ListsRows(b, table, u, m)
    ensures forall x :: x in a <==> x in b
  {
    hide Selected;
  }

  // ----- from the chain to the client

  lemma {:induction false} StoredHistory(log: seq<Event>, u: Pubkey, m: MarketId)
    ensures HistoryOf(Stored(log), u, m) == HistoryOf(log, u, m)
  {
    hide Indexed;
    if log != [] {
      var before, e := log[..|log| - 1], log[|log| - 1];
      StoredHistory(before, u, m);
      HistoryPush(Stored(before), e, u, m);
      ModeIsNotServed(e, u, m);
      assert Stored(before) + [] == Stored(before);
      assert HistoryOf(before, u, m) + [] == HistoryOf(before, u, m);
    }
  }

  lemma ModeIsNotServed(e: Event, u: Pubkey, m: MarketId)
    ensures e.MarketModeChanged? ==> Indexed(e, u, m) == []
  {
  }

  /** The rows of a caught-up indexer, in the order of the history, show the chain's own events. */
  lemma CaughtUpRows(log: seq<Event>, steps: seq<Step>, cfg: Config, u: Pubkey, m: MarketId)
    requires NeverSkips(FRESH, steps, cfg) && Publishes(RunSteps(FRESH, steps, cfg).history, cfg, log)
    requires RunSteps(FRESH, steps, cfg).start == Some(0) && CaughtUp(RunSteps(FRESH, steps, cfg))
    ensures var w := RunSteps(FRESH, steps, cfg);
            var rows := HistoryRows(w.db.liquidity, Emission(w.history, cfg), u, m);
            && ListsRows(rows, w.db.liquidity, u, m) && RowLinesAscend(rows) && OneRowPerLine(w.db.liquidity)
            && Shown(rows, u, m) == HistoryOf(log, u, m)
  {
    hide RunSteps, NeverSkips, Stored, Emission, Delivered, Recorded, Tabulates, HistoryOf, HistoryRows,
        DistinctSignatures,
         Servable, ListsRows, RowLinesAscend, OneRowPerLine, Shown;
    var w := RunSteps(FRESH, steps, cfg);
    PipelineDelivers(steps, cfg);
    RunsAreRecorded(steps, cfg);
    TablesHoldEachOnce(w.db, w.history, cfg);
    RowsAreListed(w.db.liquidity, Emission(w.history, cfg), u, m);
    LinesGiveRows(w.db.liquidity, Emission(w.history, cfg));
    StoredHistory(log, u, m);
  }

  /** From the chain to the client: after any run of the program and any run of the indexer that has
      caught up with it, whatever answer the API gives. The client's summary is defined exactly when
      the answer's order nowhere redeems more than it has deposited, and then it shows the shares the
      chain holds and a cost basis within the deposits. */
  lemma ClientSeesHoldings(
    tokens: map<Chain.TokenKey, u64>, cs: seq<Chain.Command>, steps: seq<Step>, cfg: Config, u: Pubkey, m: MarketId,
    newestFirst: seq<LiquidityItem>)
    requires Inv.Supply(tokens) <= U64_MAX && NeverSkips(FRESH, steps, cfg)
    requires Publishes(RunSteps(FRESH, steps, cfg).history, cfg, Chain.Run(Chain.Initial(tokens), cs).log)
    requires RunSteps(FRESH, steps, cfg).start == Some(0) && CaughtUp(RunSteps(FRESH, steps, cfg))
    requires Answers(newestFirst, RunSteps(FRESH, steps, cfg).db.liquidity, u, m)
    ensures var s, oldestFirst := Chain.Run(Chain.Initial(tokens), cs), Reversed(Shown(newestFirst, u, m));
            var summary := Fold(oldestFirst);
            && multiset(oldestFirst) == multiset(HistoryOf(s.log, u, m))
            && (summary.Some? <==> NeverOverdrawn(oldestFirst))
            && (summary.Some? ==>
                && summary.value.shares == LpTheorems.Held(s, m, u)
                && summary.value.deposited <= TotalDeposits(HistoryOf(s.log, u, m))
                && (LpTheorems.Held(s, m, u) == 0 ==> summary.value.deposited == 0))
  {
    hide RunSteps, Chain.Run, NeverSkips, Inv.Supply, Publishes, LpTheorems.Held, HistoryOf, HistoryRows, ListsRows,
         RowLinesAscend, OneRowPerLine, Shown, Fold, Ascending, NeverOverdrawn, CaughtUp, Emission, Net, NoneTwice;
    var s, w := Chain.Run(Chain.Initial(tokens), cs), RunSteps(FRESH, steps, cfg);
    var rows, sorted := HistoryRows(w.db.liquidity, Emission(w.history, cfg), u, m), Reversed(newestFirst);
    CaughtUpRows(s.log, steps, cfg, u, m);
    SameRows(rows, sorted, w.db.liquidity, u, m);
    RowsOnce(rows);
    RowsOnce(sorted);
    SameMembers(rows, sorted);
    ShownByMultiset(rows, sorted, u, m);
    ShownReversed(newestFirst, u, m);
    FoldMatchesChain(tokens, cs, u, m);
    OrderedSummary(HistoryOf(s.log, u, m), Shown(sorted, u, m), s.log, u, m);
  }

  /** Any order of a user's history: when it folds, it folds to the same shares. */
  lemma OrderedSummary(history: seq<IndexedEvent>, events: seq<IndexedEvent>, log: seq<Event>, u: Pubkey, m: MarketId)
    requires multiset(history) == multiset(events) && history == HistoryOf(log, u, m) && Fold(history).Some?
    requires forall e :: e in history && e.kind == DepositKind ==> e.shares > 0
    ensures Fold(events).Some? <==> NeverOverdrawn(events)
    ensures Fold(events).Some? ==>
              && Fold(events).value.shares == Fold(history).value.shares
              && Fold(events).value.deposited <= TotalDeposits(history)
              && (Fold(events).value.shares == 0 ==> Fold(events).value.deposited == 0)
  {
    hide Fold, NeverOverdrawn, HistoryOf, Net, TotalDeposits;
    HistoryIsPriced(log, u, m);
    forall e | e in events
      ensures e in history
    {
      assert e in multiset(events) && e in multiset(history);
    }
    FoldSucceedsExactly(events);
    FoldSucceedsExactly(history);
    NetByMultiset(history, events);
    if Fold(events).Some? {
      CostBasisBounded(events);
    }
  }

  // ----- when the API's order is the order of the history

  /** The API serves a user's rows in the order of the history exactly when times, signatures and the
      texts of the paths ascend along it; then the client's summary is defined and right. */
  lemma ApiKeepsHistoryOrder(
    tokens: map<Chain.TokenKey, u64>, cs: seq<Chain.Command>, steps: seq<Step>, cfg: Config, u: Pubkey, m: MarketId,
    newestFirst: seq<LiquidityItem>)
    requires Inv.Supply(tokens) <= U64_MAX && NeverSkips(FRESH, steps, cfg)
    requires Publishes(RunSteps(FRESH, steps, cfg).history, cfg, Chain.Run(Chain.Initial(tokens), cs).log)
    requires RunSteps(FRESH, steps, cfg).start == Some(0) && CaughtUp(RunSteps(FRESH, steps, cfg))
    requires Answers(newestFirst, RunSteps(FRESH, steps, cfg).db.liquidity, u, m)
    ensures var w := RunSteps(FRESH, steps, cfg);
            var rows := HistoryRows(w.db.liquidity, Emission(w.history, cfg), u, m);
            var summary := Fold(Reversed(Shown(newestFirst, u, m)));
            && (Reversed(newestFirst) == rows <==> Ascending(rows))
            && (Ascending(rows) ==>
                summary.Some? && summary.value.shares == LpTheorems.Held(Chain.Run(Chain.Initial(tokens), cs), m, u))
  {
    hide RunSteps, Chain.Run, NeverSkips, Inv.Supply, Publishes, LpTheorems.Held, HistoryOf, HistoryRows, ListsRows,
         RowLinesAscend, OneRowPerLine, Shown, Fold, Ascending, CaughtUp, Emission;
    var s, w := Chain.Run(Chain.Initial(tokens), cs), RunSteps(FRESH, steps, cfg);
    var rows, sorted := HistoryRows(w.db.liquidity, Emission(w.history, cfg), u, m), Reversed(newestFirst);
    CaughtUpRows(s.log, steps, cfg, u, m);
    SameRows(rows, sorted, w.db.liquidity, u, m);
    ShownReversed(newestFirst, u, m);
    FoldMatchesChain(tokens, cs, u, m);
    if Ascending(rows) {
      SortedOnce(rows, sorted);
    }
  }

  /** Times that never fall, distinct between transactions, and line numbers of one length within each
      transaction are enough. */
  lemma TimesAndLinesAscend(rows: seq<LiquidityItem>)
    requires RowLinesAscend(rows)
    requires forall i, j :: 0 <= i < j < |rows| ==> SortTime(rows[i]) <= SortTime(rows[j])
    requires forall i, j :: 0 <= i < j < |rows| && SortTime(rows[i]) == SortTime(rows[j]) ==>
               && rows[i].key.signature == rows[j].key.signature
               && |Decimal(rows[i].key.path)| == |Decimal(rows[j].key.path)|
    ensures Ascending(rows)
  {
    hide TextLess, PathText, Decimal;
    forall i, j | 0 <= i < j < |rows|
      ensures Earlier(rows[i], rows[j])
    {
      if SortTime(rows[i]) == SortTime(rows[j]) {
        SamePathOrder(rows[i].key.path, rows[j].key.path);
      }
    }
  }
}
