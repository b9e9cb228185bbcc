/** When the index can become the image of the chain at all: what stops it is an amount that the chain
    accepts and the database does not. */
module PipelineProgress {
  import opened Rust
  import opened Protocol
  import opened Crawl
  import opened Projection
  import opened Storage
  import opened Ingestion
  import opened IngestionRuns
  import opened Replay
  import opened IngestionProgress
  import opened EndToEnd
  import opened Journaling
  import opened Lists
  import IngestionGaps
  import Chain
  import Inv = Invariants

  // ----- an event that does not fit is never passed

  /** The transaction is ingestible and carries an event the database refuses. */
  ghost predicate Refused(tx: Tx, cfg: Config) {
    Ingestible(tx, cfg) && !AllFit(EventsOf(tx, cfg))
  }

  lemma StoredFits(db: Db, o: Observation)
    requires Recorded(db) && Has(db, o)
    ensures AmountsFit(o.event).Ok?
  {
    hide AmountsFit, KindOf;
    var d :| d in db.delivered && SameEvent(d.o, o);
    assert d.o.(blockTime := None).event == o.(blockTime := None).event;
  }

  lemma RefusedIsNeverCommitted(db: Db, tx: Tx, cfg: Config)
    requires Recorded(db) && Refused(tx, cfg)
    ensures !Committed(db, tx, cfg)
  {
    hide AmountsFit, EventsOf, Recorded, Has;
    forall o | o in EventsOf(tx, cfg) && Has(db, o)
      ensures AmountsFit(o.event).Ok?
    {
      StoredFits(db, o);
    }
  }

  /** Whatever happens, growth included: while no catch-up skips anything, neither the cursor nor a
      live session ever gets past a refused transaction. */
  lemma RefusedIsNeverPassed(steps: seq<Step>, cfg: Config, p: nat)
    requires NeverSkips(FRESH, steps, cfg)
    requires var w := RunSteps(FRESH, steps, cfg); Begin(w) <= p < |w.history| && Refused(w.history[p], cfg)
    ensures var w := RunSteps(FRESH, steps, cfg);
            && (w.db.cursor.Some? ==> CursorIndex(w).Some? && CursorIndex(w).value < p)
            && (w.session.Live? ==> w.session.next <= p)
  {
    hide RunSteps, NeverSkips, EventsOf, Recorded, Committed, IndexOf, DistinctSignatures, AllFit;
    CrashSafe(steps, cfg);
    RunsAreRecorded(steps, cfg);
    var w := RunSteps(FRESH, steps, cfg);
    RefusedIsNeverCommitted(w.db, w.history[p], cfg);
    SafeMeansCursorCovered(w, cfg);
  }

  // ----- which amounts the chain can emit

  /** Every withdrawal request asks for a minimum that fits BIGINT. */
  ghost predicate MinimumsFit(log: seq<Event>) {
    forall e :: e in log && e.WithdrawalRequested? ==> e.minAssetsOut <= I64_MAX
  }

  /** With no more tokens than BIGINT can count, the only amounts that can exceed it are the minimums
      of withdrawal requests. */
  lemma OnlyMinimumsExceed(tokens: map<Chain.TokenKey, u64>, cs: seq<Chain.Command>)
    requires Inv.Supply(tokens) <= I64_MAX
    ensures var log := Chain.Run(Chain.Initial(tokens), cs).log;
            (forall e :: e in log ==> AmountsFit(e).Ok?) <==> MinimumsFit(log)
  {
    hide Chain.Run, Inv.Supply, Sized;
    LogIsSized(tokens, cs);
    var log := Chain.Run(Chain.Initial(tokens), cs).log;
    forall e | e in log
      ensures AmountsFit(e).Ok? <==> (e.WithdrawalRequested? ==> e.minAssetsOut <= I64_MAX)
    {
      SizedFits(e, Inv.Supply(tokens));
    }
  }

  lemma SizedFits(e: Event, supply: nat)
    requires Sized(e, supply) && supply <= I64_MAX
    ensures AmountsFit(e).Ok? <==> (e.WithdrawalRequested? ==> e.minAssetsOut <= I64_MAX)
  {
  }

  /** And such a request is reachable: any holder without a pending withdrawal can make it. */
  lemma RefusedMinimumIsAccepted(s: Chain.State, m: MarketId, u: Pubkey)
    requires Inv.Inv(s) && m in s.markets && u in s.liquidity
    requires var entry := EntryIndex(s.liquidity[u], m); entry.Some? && s.liquidity[u][entry.value].pending == 0
    ensures var r := Chain.Exec(s, Chain.Request(m, u, 1, U64_MAX));
            && r.Ok? && |r.value.log| == |s.log| + 1
            && AmountsFit(r.value.log[|s.log|]) == Err(ValueOutOfRange)
  {
    hide Inv.Inv, Chain.Exec, EntryIndex;
    RequestsTakeAnyMinimum(s, m, u, 1, U64_MAX);
    HeldIsPositive(s, u, EntryIndex(s.liquidity[u], m).value);
  }

  lemma HeldIsPositive(s: Chain.State, u: Pubkey, i: nat)
    requires Inv.Inv(s) && u in s.liquidity && i < |s.liquidity[u]|
    ensures s.liquidity[u][i].shares > 0
  {
    hide Inv.Custody, Inv.Books, Inv.Risk, Inv.Journal, Inv.History, Inv.Supply, SharesIn, Inv.Holdings;
    assert Inv.EntriesOk(s.liquidity[u]);
  }

  // ----- the pipeline

  /** The slots of the transactions that a replay reads fit BIGINT. */
  predicate SlotsFit(h: seq<Tx>) {
    forall i :: 0 <= i < |h| && !h[i].failed && h[i].hasMeta ==> h[i].slot <= I64_MAX
  }

  lemma PublishedFit(h: seq<Tx>, cfg: Config, log: seq<Event>)
    requires Publishes(h, cfg, log)
    ensures (forall e :: e in log ==> AmountsFit(e).Ok?) <==> forall i :: 0 <= i < |h| ==> !Refused(h[i], cfg)
  {
    hide Emission, Stored, LandedEvents, AmountsFit, Refused;
    var em := Emission(h, cfg);
    StoredMembers(log);
    EmissionMembers(h, cfg);
    ModesFit();
    EventsFit(em);
    assert (forall e :: e in log ==> AmountsFit(e).Ok?) <==> AllFit(em);
    assert AllFit(em) <==> forall i :: 0 <= i < |h| ==> AllFit(LandedEvents(h[i], cfg));
    forall i | 0 <= i < |h|
      ensures AllFit(LandedEvents(h[i], cfg)) <==> !Refused(h[i], cfg)
    {
      LandedFit(h[i], cfg);
    }
  }

  lemma EventsFit(os: seq<Observation>)
    ensures AllFit(os) <==> forall e :: e in EventsIn(os) ==> AmountsFit(e).Ok?
  {
    hide AmountsFit;
    assert forall i :: 0 <= i < |os| ==>
        os[i] in os && EventsIn(os)[i] == os[i].event && EventsIn(os)[i] in EventsIn(os);
  }

  lemma LandedFit(tx: Tx, cfg: Config)
    requires LandedEvents(tx, cfg) != [] ==> Ingestible(tx, cfg)
    ensures AllFit(LandedEvents(tx, cfg)) <==> !Refused(tx, cfg)
  {
    hide AmountsFit, EventsOf;
  }

  lemma ModesFit()
    ensures forall e: Event :: e.MarketModeChanged? ==> AmountsFit(e).Ok?
  {
  }

  lemma NotRefusedIsStorable(tx: Tx, cfg: Config)
    requires !tx.failed && tx.hasMeta ==> tx.slot <= I64_MAX
    ensures Refused(tx, cfg) <==> !Storable(tx, cfg)
  {
    hide EventsOf, AllFit;
  }

  /** The first crawl started, or would start, with the oldest transaction. */
  predicate FromTheStart(w: World, cfg: Config) {
    match w.start
    case Some(first) => first == 0
    case None => WindowStart(w, cfg) == 0
  }

  lemma ReachingNeverBails(w: World, cfg: Config)
    requires CatchupReaches(w, cfg)
    ensures !WouldBail(w, cfg)
  {
    hide Reach, Reaches, Newest;
  }

  /** A safe process whose next crawl reaches its cursor can get to the end of the history exactly
      when the history holds no refused transaction. */
  lemma CatchesUpUnlessRefused(w: World, cfg: Config)
    requires Safe(w, cfg) && Recorded(w.db) && w.session.Idle?
    requires CatchupReaches(w, cfg) && FromTheStart(w, cfg) && SlotsFit(w.history)
    ensures CanCatchUp(w, cfg) <==> forall i :: 0 <= i < |w.history| ==> !Refused(w.history[i], cfg)
  {
    hide Refused, Storable, Recorded, WouldBail, Reach, Reaches, Newest, IndexOf, DistinctSignatures, Committed;
    ReachingNeverBails(w, cfg);
    ReachingSkipsNothing(w, cfg);
    SafeMeansCursorCovered(w, cfg);
    forall i | 0 <= i < |w.history|
      ensures Refused(w.history[i], cfg) <==> !Storable(w.history[i], cfg)
      ensures i < WindowStart(w, cfg) ==> !Refused(w.history[i], cfg)
    {
      NotRefusedIsStorable(w.history[i], cfg);
      if i < WindowStart(w, cfg) && Refused(w.history[i], cfg) {
        RefusedIsNeverCommitted(w.db, w.history[i], cfg);
        RefusedIsIngestible(w.history[i], cfg);
        assert false;
      }
    }
  }

  lemma RefusedIsIngestible(tx: Tx, cfg: Config)
    requires Refused(tx, cfg)
    ensures Ingestible(tx, cfg)
  {
  }

  /** Progress of the whole pipeline, exactly: after any run of the program and any run of the indexer
      that skipped nothing, a restarted process whose next crawl reaches its cursor can catch up with
      the chain if and only if no withdrawal request asked for a minimum beyond BIGINT. */
  lemma PipelineProgressExactly(
    tokens: map<Chain.TokenKey, u64>, cs: seq<Chain.Command>, steps: seq<Step>, cfg: Config)
    requires Inv.Supply(tokens) <= I64_MAX && NeverSkips(FRESH, steps, cfg)
    requires var w := RunSteps(FRESH, steps, cfg);
             && Publishes(w.history, cfg, Chain.Run(Chain.Initial(tokens), cs).log) && SlotsFit(w.history)
             && w.session.Idle? && CatchupReaches(w, cfg) && FromTheStart(w, cfg)
    ensures (exists more :: NoGrowth(more) && CaughtUp(RunSteps(RunSteps(FRESH, steps, cfg), more, cfg)))
       <==> MinimumsFit(Chain.Run(Chain.Initial(tokens), cs).log)
  {
    hide RunSteps, Chain.Run, NeverSkips, Inv.Supply, Publishes, SlotsFit, CatchupReaches, FromTheStart, Recorded,
         CanCatchUp, MinimumsFit, Refused, AmountsFit, NoGrowth, CaughtUp, Frontier, WellFormed;
    var w := RunSteps(FRESH, steps, cfg);
    CrashSafe(steps, cfg);
    RunsAreRecorded(steps, cfg);
    OnlyMinimumsExceed(tokens, cs);
    PublishedFit(w.history, cfg, Chain.Run(Chain.Initial(tokens), cs).log);
    CatchesUpUnlessRefused(w, cfg);
    ProgressExactly(w, cfg);
  }

  lemma StartInSession(steps: seq<Step>, more: seq<Step>, k: nat)
    requires OneStart(more) && k < |steps + more| && (steps + more)[k].StartCatchup?
    ensures if k < |steps| then (steps + more)[..k] == steps[..k] && steps[k].StartCatchup?
            else (steps + more)[..k] == steps + [Subscribe]
  {
    if k >= |steps| {
      assert more[k - |steps|].StartCatchup?;
      assert (steps + more)[..k] == steps + more[..1] && more[..1] == [Subscribe];
    } else {
      assert (steps + more)[k] == steps[k] && (steps + more)[..k] == steps[..k];
    }
  }

  /** A session appended to a run that skipped nothing still skips nothing. */
  lemma SessionSkipsNothing(steps: seq<Step>, more: seq<Step>, cfg: Config)
    requires NeverSkips(FRESH, steps, cfg) && OneStart(more)
    requires WellFormed(RunSteps(FRESH, steps, cfg)) && CatchupReaches(RunSteps(FRESH, steps, cfg), cfg)
    ensures NeverSkips(FRESH, steps + more, cfg)
  {
    hide RunSteps, Next, NothingSkipped, WellFormed, CatchupReaches, OneStart;
    var w := RunSteps(FRESH, steps, cfg);
    RunConcat(FRESH, steps, [Subscribe], cfg);
    RunOne(w, Subscribe, cfg);
    ReachingSkipsNothing(w, cfg);
    SubscribedSkipsNothing(w, cfg);
    forall k | 0 <= k < |steps + more| && (steps + more)[k].StartCatchup?
      ensures var before := RunSteps(FRESH, (steps + more)[..k], cfg);
              before.session.Subscribed? ==> NothingSkipped(before, cfg)
    {
      StartInSession(steps, more, k);
    }
  }

  lemma SubscribedSkipsNothing(w: World, cfg: Config)
    requires NothingSkipped(w, cfg)
    ensures NothingSkipped(Next(w, Subscribe, cfg), cfg)
  {
    var w' := Next(w, Subscribe, cfg);
    SameWindow(w, w', cfg);
    IngestionGaps.SameLosses(w, w', cfg);
    hide WindowStart, Missing;
  }

  /** And when it can, it becomes the image of the chain: one more session, with every position of the
      run mirrored at its end. */
  lemma PipelineReachesMirror(
    tokens: map<Chain.TokenKey, u64>, cs: seq<Chain.Command>, steps: seq<Step>, cfg: Config) returns (more: seq<Step>)
    requires Inv.Supply(tokens) <= I64_MAX && NeverSkips(FRESH, steps, cfg)
    requires var w := RunSteps(FRESH, steps, cfg);
             && Publishes(w.history, cfg, Chain.Run(Chain.Initial(tokens), cs).log) && SlotsFit(w.history)
             && w.session.Idle? && CatchupReaches(w, cfg) && FromTheStart(w, cfg)
    requires MinimumsFit(Chain.Run(Chain.Initial(tokens), cs).log)
    ensures NoGrowth(more)
    ensures var w' := RunSteps(FRESH, steps + more, cfg);
            && CaughtUp(w') && w'.history == RunSteps(FRESH, steps, cfg).history
            && forall id :: Mirrors(Chain.Run(Chain.Initial(tokens), cs), w'.db.positions, id)
  {
    hide RunSteps, Chain.Run, NeverSkips, Inv.Supply, Publishes, SlotsFit, CatchupReaches, Recorded, Mirrors,
         WindowStorable, MinimumsFit, Refused, AmountsFit, Frontier, WellFormed, WouldBail, WindowMoves, WindowStart;
    var w := RunSteps(FRESH, steps, cfg);
    CrashSafe(steps, cfg);
    RunsAreRecorded(steps, cfg);
    OnlyMinimumsExceed(tokens, cs);
    PublishedFit(w.history, cfg, Chain.Run(Chain.Initial(tokens), cs).log);
    CatchesUpUnlessRefused(w, cfg);
    ReachingNeverBails(w, cfg);
    more := OneSession(w, cfg);
    RunConcat(FRESH, steps, more, cfg);
    SessionSkipsNothing(steps, more, cfg);
    forall id
      ensures Mirrors(Chain.Run(Chain.Initial(tokens), cs), RunSteps(FRESH, steps + more, cfg).db.positions, id)
    {
      PipelineMirrorsChain(tokens, cs, steps + more, cfg, id);
    }
  }
}
