/** From the chain to the index: the positions table of an indexer that has stored the events of a
    market run is an exact image of the run. */
module EndToEnd {
  import opened Rust
  import opened Protocol
  import opened Crawl
  import opened Projection
  import opened Storage
  import opened Ingestion
  import opened IngestionRuns
  import opened IngestionProgress
  import Chain
  import Runs
  import Inv = Invariants

  /** The events the indexer stores. */
  function Stored(log: seq<Event>): seq<Event> {
    if log == [] then []
    else
      var e := log[|log| - 1];
      Stored(log[..|log| - 1]) + if e.MarketModeChanged? then [] else [e]
  }

  /** The observations that count in one transaction: a failed one was rolled back, whatever its log
      still says, and an older one carries another event version. */
  function LandedEvents(tx: Tx, cfg: Config): seq<Observation> {
    if Landed(tx, cfg) then EventsOf(tx, cfg) else []
  }

  /** All the observations of a history that count, oldest transaction first. */
  function Emission(h: seq<Tx>, cfg: Config): seq<Observation> {
    if h == [] then [] else Emission(h[..|h| - 1], cfg) + LandedEvents(h[|h| - 1], cfg)
  }

  function EventsIn(os: seq<Observation>): seq<Event> {
    seq(|os|, i requires 0 <= i < |os| => os[i].event)
  }

  /** The landed transactions of the history carry the chain's events, each once and in order, and
      the node can serve those that do. */
  ghost predicate Publishes(h: seq<Tx>, cfg: Config, log: seq<Event>) {
    && EventsIn(Emission(h, cfg)) == Stored(log)
    && Servable(h, cfg)
  }

  ghost predicate Servable(h: seq<Tx>, cfg: Config) {
    forall i :: 0 <= i < |h| && LandedEvents(h[i], cfg) != [] ==> Ingestible(h[i], cfg)
  }

  /** Every published event has been delivered, and nothing else. */
  ghost predicate Delivered(db: Db, h: seq<Tx>, cfg: Config) {
    && Projected(db)
    && (forall d :: d in db.delivered ==> d.o.(blockTime := None) in Emission(h, cfg))
    && (forall o :: o in Emission(h, cfg) ==> Has(db, o))
  }

  // ----- counting

  lemma {:induction false} StoredCounts(log: seq<Event>, id: PosId)
    ensures Inv.CreatedCount(Stored(log), id) == Inv.CreatedCount(log, id)
    ensures Inv.ClosedCount(Stored(log), id) == Inv.ClosedCount(log, id)
  {
    if log != [] {
      var before, e := log[..|log| - 1], log[|log| - 1];
      StoredCounts(before, id);
      assert Stored(before) + [] == Stored(before);
      Inv.CountsPush(Stored(before), e);
    }
  }

  lemma {:induction false} StoredMembers(log: seq<Event>)
    ensures forall e :: e in Stored(log) <==> e in log && !e.MarketModeChanged?
  {
    if log != [] {
      StoredMembers(log[..|log| - 1]);
      assert log == log[..|log| - 1] + [log[|log| - 1]];
    }
  }

  predicate IsCreated(e: Event, id: PosId) {
    e.PositionCreated? && e.id == id
  }

  predicate IsClosed(e: Event, id: PosId) {
    e.PositionClosed? && e.id == id
  }

  lemma {:induction false} CountedOnce(log: seq<Event>, id: PosId, i: nat, j: nat)
    requires i <= j < |log|
    ensures Inv.CreatedCount(log, id) <= 1 && IsCreated(log[i], id) && IsCreated(log[j], id) ==> i == j
    ensures Inv.ClosedCount(log, id) <= 1 && IsClosed(log[i], id) && IsClosed(log[j], id) ==> i == j
    ensures IsCreated(log[i], id) ==> Inv.CreatedCount(log, id) >= 1
    ensures IsClosed(log[i], id) ==> Inv.ClosedCount(log, id) >= 1
  {
    var last := |log| - 1;
    if j < last {
      CountedOnce(log[..last], id, i, j);
    } else if i < last {
      CountedOnce(log[..last], id, i, i);
    }
  }

  lemma {:induction false} CountFinds(log: seq<Event>, id: PosId)
    ensures Inv.CreatedCount(log, id) >= 1 ==> exists i :: 0 <= i < |log| && IsCreated(log[i], id)
    ensures Inv.ClosedCount(log, id) >= 1 ==> exists i :: 0 <= i < |log| && IsClosed(log[i], id)
  {
    if log != [] {
      CountFinds(log[..|log| - 1], id);
      assert forall i :: 0 <= i < |log| - 1 ==> log[..|log| - 1][i] == log[i];
    }
  }

  // ----- one position

  /** A reference creation and close for a position: the emitted ones where they exist. */
  ghost predicate References(em: seq<Observation>, id: PosId, c: Observation, x: Observation) {
    && Creates(c, id) && Closes(x, id)
    && (forall o :: o in em && Creates(o, id) ==> o == c)
    && (forall o :: o in em && Closes(o, id) ==> o == x)
  }

  lemma FindReferences(em: seq<Observation>, id: PosId) returns (c: Observation, x: Observation)
    requires Inv.CreatedCount(EventsIn(em), id) <= 1 && Inv.ClosedCount(EventsIn(em), id) <= 1
    ensures References(em, id, c, x)
  {
    hide Inv.CreatedCount, Inv.ClosedCount;
    c := Observation(0, 0, None, 0, PositionCreated(id, 0, 0, 0, Up, 0));
    x := Observation(0, 0, None, 0, PositionClosed(id, Refunded, 0, 0, 0));
    if i :| 0 <= i < |em| && Creates(em[i], id) {
      c := em[i];
    }
    if i :| 0 <= i < |em| && Closes(em[i], id) {
      x := em[i];
    }
    forall i, j | 0 <= i <= j < |em|
      ensures Creates(em[i], id) && Creates(em[j], id) ==> i == j
      ensures Closes(em[i], id) && Closes(em[j], id) ==> i == j
    {
      CountedOnce(EventsIn(em), id, i, j);
    }
  }

  lemma RowOfPosition(db: Db, h: seq<Tx>, cfg: Config, id: PosId, c: Observation, x: Observation)
    requires Delivered(db, h, cfg) && References(Emission(h, cfg), id, c, x)
    ensures SettledLookup(db.positions, id)
         == Canonical(exists o :: o in Emission(h, cfg) && Creates(o, id),
                      exists o :: o in Emission(h, cfg) && Closes(o, id), c, x)
  {
    hide Emission, Canonical, Rows;
    var em, ds := Emission(h, cfg), db.delivered;
    forall d | d in ds
      ensures Creates(d.o, id) ==> SameEvent(d.o, c) && c in em
      ensures Closes(d.o, id) ==> SameEvent(d.o, x) && x in em
    {
      var o := d.o.(blockTime := None);
      assert o in em && o.event == d.o.event;
      assert SameEvent(d.o, o);
    }
    forall o | o in em
      ensures Creates(o, id) ==> SeenCreated(ds, id)
      ensures Closes(o, id) ==> SeenClosed(ds, id)
    {
      var d :| d in ds && SameEvent(d.o, o);
      assert d.o.(blockTime := None).event == o.(blockTime := None).event;
      var i :| 0 <= i < |ds| && ds[i] == d;
    }
    RowsConverge(ds, id, c, x);
  }

  /** What the index shows of one position: it has a row exactly when it was opened; the row says
      what was opened and by whom; it is open exactly while the position is live; and a closed row
      carries the amounts of a close event of the position. */
  ghost predicate Mirrors(s: Chain.State, positions: map<PosId, Row>, id: PosId) {
    && (id in positions <==> id in s.tasks)
    && (id in s.tasks ==>
        && Opened(positions[id], s.tasks[id]) && positions[id].version == 2
        && (positions[id].status == OpenRow <==> Inv.Live(s, id))
        && (!Inv.Live(s, id) ==> exists e :: e in s.log && PaidAs(positions[id], e, id)))
  }

  predicate Opened(r: Row, t: Chain.Task) {
    && r.user == Some(t.user) && r.collateral == Some(t.created.collateral)
    && r.entryPrice == Some(t.created.entryPrice)
    && r.direction == Some(t.created.direction) && r.expiresAt == Some(t.created.expiresAt) && !r.partial
    && r.openedAt == Some(t.openedAt)
  }

  predicate PaidAs(r: Row, e: Event, id: PosId) {
    && e.PositionClosed? && e.id == id
    && r.outcome == Some(e.outcome) && r.payout == Some(e.payout) && r.lpFee == Some(e.lpFee)
    && r.platformFee == Some(e.platformFee)
    && (r.status == RefundedRow <==> e.outcome == Refunded)
    && (r.status == SettledRow <==> e.outcome != Refunded)
  }

  /** What was emitted for a position is what the chain's journal holds for it. */
  lemma EmittedIsJournaled(s: Chain.State, em: seq<Observation>, id: PosId, c: Observation, x: Observation)
    requires Inv.Inv(s) && EventsIn(em) == Stored(s.log) && References(em, id, c, x)
    ensures (exists o :: o in em && Creates(o, id)) <==> id in s.tasks
    ensures (exists o :: o in em && Closes(o, id)) <==> id in s.tasks && !Inv.Live(s, id)
    ensures id in s.tasks ==> c.event in s.log
    ensures id in s.tasks && !Inv.Live(s, id) ==> x.event in s.log
  {
    hide Inv.Custody, Inv.Books, Inv.Risk, Inv.Shares, Inv.History, Inv.Supply, Inv.Live, Inv.CreatedCount,
        Inv.ClosedCount, Stored;
    var es := EventsIn(em);
    StoredCounts(s.log, id);
    StoredMembers(s.log);
    CountFinds(es, id);
    assert forall i :: 0 <= i < |em| ==> es[i] == em[i].event && em[i] in em && es[i] in es;
    forall i | 0 <= i < |em|
      ensures Creates(em[i], id) ==> Inv.CreatedCount(es, id) >= 1
      ensures Closes(em[i], id) ==> Inv.ClosedCount(es, id) >= 1
    {
      CountedOnce(es, id, i, i);
    }
  }

  /** A creation event in the journal is the one its task records. */
  lemma CreationRecorded(s: Chain.State, id: PosId, e: Event)
    requires Inv.Inv(s) && id in s.tasks && e in s.log && e.PositionCreated? && e.id == id
    ensures e == Inv.CreationEvent(s.tasks[id]) && s.tasks[id].created.Id() == id
    ensures e.expiresAt - 10 == s.tasks[id].openedAt
  {
    hide Inv.Custody, Inv.Books, Inv.Risk, Inv.Shares, Inv.History, Inv.Supply, Inv.Live, Inv.CreatedCount,
        Inv.ClosedCount;
    TaskNamed(s, id);
  }

  /** The journal holds at most one creation and one close of a position. */
  lemma JournaledOnce(s: Chain.State, id: PosId)
    requires Inv.Inv(s)
    ensures Inv.CreatedCount(Stored(s.log), id) <= 1 && Inv.ClosedCount(Stored(s.log), id) <= 1
  {
    hide Inv.Custody, Inv.Books, Inv.Risk, Inv.Shares, Inv.History, Inv.Supply, Inv.Live, Inv.CreatedCount,
        Inv.ClosedCount, Stored;
    StoredCounts(s.log, id);
  }

  /** The index mirrors the chain, for every market run and every database to which the run's events
      were delivered, in any order and with any repetition. */
  lemma IndexMirrorsChain(s: Chain.State, db: Db, h: seq<Tx>, cfg: Config, id: PosId)
    requires Inv.Inv(s) && Publishes(h, cfg, s.log) && Delivered(db, h, cfg)
    ensures Mirrors(s, db.positions, id)
  {
    hide Inv.Inv, Inv.Live, Emission, Rows, Stored, EventsOf, References, Delivered;
    var em := Emission(h, cfg);
    JournaledOnce(s, id);
    var c, x := FindReferences(em, id);
    NamedReferences(em, id, c, x);
    RowOfPosition(db, h, cfg, id, c, x);
    EmittedIsJournaled(s, em, id, c, x);
    if id in s.tasks {
      CreationRecorded(s, id, c.event);
      assert !Inv.Live(s, id) ==> PaidAs(db.positions[id], x.event, id);
    }
  }

  lemma NamedReferences(em: seq<Observation>, id: PosId, c: Observation, x: Observation)
    requires References(em, id, c, x)
    ensures Creates(c, id) && Closes(x, id)
  {
  }

  lemma TaskNamed(s: Chain.State, id: PosId)
    requires Inv.Inv(s) && id in s.tasks
    ensures s.tasks[id].created.Id() == id && s.tasks[id].created.expiresAt == s.tasks[id].openedAt + 10
  {
    hide Inv.Books, Inv.Risk, Inv.Shares, Inv.History, Inv.Supply, Inv.Journal, Inv.ListOk;
    assert Inv.TaskOk(s.tasks[id], id);
  }

  // ----- through the running indexer

  lemma {:induction false} EmissionMembers(h: seq<Tx>, cfg: Config)
    ensures forall o :: o in Emission(h, cfg) <==> exists i :: 0 <= i < |h| && o in LandedEvents(h[i], cfg)
  {
    hide LandedEvents;
    if h != [] {
      var before, last := Emission(h[..|h| - 1], cfg), LandedEvents(h[|h| - 1], cfg);
      EmissionMembers(h[..|h| - 1], cfg);
      assert forall i :: 0 <= i < |h| - 1 ==> h[..|h| - 1][i] == h[i];
      assert forall o :: o in Emission(h, cfg) <==> o in before || o in last;
    }
  }

  /** The whole pipeline: a run of the program, its events published in a history, and any run of the
      indexer over that history, with its crashes, restarts and redeliveries. Once the process has
      caught up with the end of the history, its table is the image of the chain. */
  lemma PipelineMirrorsChain(
    tokens: map<Chain.TokenKey, u64>, cs: seq<Chain.Command>, steps: seq<Step>, cfg: Config, id: PosId)
    requires Inv.Supply(tokens) <= U64_MAX && NeverSkips(FRESH, steps, cfg)
    requires Publishes(RunSteps(FRESH, steps, cfg).history, cfg, Chain.Run(Chain.Initial(tokens), cs).log)
    requires RunSteps(FRESH, steps, cfg).start == Some(0) && CaughtUp(RunSteps(FRESH, steps, cfg))
    ensures Mirrors(Chain.Run(Chain.Initial(tokens), cs), RunSteps(FRESH, steps, cfg).db.positions, id)
  {
    hide RunSteps, Chain.Run, NeverSkips, Inv.Inv, Inv.Supply, Stored, Emission, Mirrors, Delivered;
    var s, w := Chain.Run(Chain.Initial(tokens), cs), RunSteps(FRESH, steps, cfg);
    ChainIsInv(tokens, cs);
    PipelineDelivers(steps, cfg);
    IndexMirrorsChain(s, w.db, w.history, cfg, id);
  }

  /** What a caught-up indexer has stored: the events of the landed transactions, and no others. */
  lemma PipelineDelivers(steps: seq<Step>, cfg: Config)
    requires NeverSkips(FRESH, steps, cfg) && Servable(RunSteps(FRESH, steps, cfg).history, cfg)
    requires RunSteps(FRESH, steps, cfg).start == Some(0) && CaughtUp(RunSteps(FRESH, steps, cfg))
    ensures Delivered(RunSteps(FRESH, steps, cfg).db, RunSteps(FRESH, steps, cfg).history, cfg)
    ensures DistinctSignatures(RunSteps(FRESH, steps, cfg).history)
  {
    hide RunSteps, NeverSkips, EventsOf, Emission, Frontier, Delivered, Covered;
    CrashSafe(steps, cfg);
    RunsAreFaithful(steps, cfg);
    CaughtUpDelivered(RunSteps(FRESH, steps, cfg), cfg);
  }

  lemma CaughtUpDelivered(w: World, cfg: Config)
    requires Safe(w, cfg) && Faithful(w, cfg) && w.start == Some(0) && CaughtUp(w) && Servable(w.history, cfg)
    ensures Delivered(w.db, w.history, cfg)
  {
    hide EventsOf, IndexOf, Projected, DistinctSignatures, Emission, Ingestible;
    EmissionMembers(w.history, cfg);
    forall o | o in Emission(w.history, cfg)
      ensures Has(w.db, o)
    {
      var i :| 0 <= i < |w.history| && o in LandedEvents(w.history[i], cfg);
      assert Committed(w.db, w.history[i], cfg);
    }
  }

  lemma ChainIsInv(tokens: map<Chain.TokenKey, u64>, cs: seq<Chain.Command>)
    requires Inv.Supply(tokens) <= U64_MAX
    ensures Inv.Inv(Chain.Run(Chain.Initial(tokens), cs))
  {
    hide Inv.Inv, Chain.Run, Inv.Supply;
    Runs.RunKeepsInv(tokens, cs);
  }
}
