/** When ingestion does lose transactions. A catch-up stores the newest window of the history before
    its gap check can stop the session, so an outrun one moves the cursor past the transactions in
    between; and a crawl without a cursor is never checked at all. */
module IngestionGaps {
  import opened Rust
  import opened LogExtraction
  import opened Crawl
  import opened Projection
  import opened Storage
  import opened Ingestion
  import opened IngestionRuns
  import opened Replay

  lemma SameEventSigned()
    ensures forall a, b :: SameEvent(a, b) ==> a.signature == b.signature
  {
    forall a: Observation, b: Observation | SameEvent(a, b)
      ensures a.signature == b.signature
    {
      assert a.(blockTime := None).signature == b.(blockTime := None).signature;
    }
  }

  lemma EventsSigned(tx: Tx, cfg: Config)
    ensures forall o :: o in EventsOf(tx, cfg) ==> o.signature == tx.signature && o.slot == tx.slot
  {
    hide Scan;
    if tx.slot <= I64_MAX {
      ObserveTimes(tx.signature, tx.slot, None, None, Scan(tx.logs, cfg.target, [], 0).0, cfg.decode);
    }
  }

  /** Storing one transaction adds no event of another. */
  lemma OtherTxUntouched(db: Db, after: Db, tx: Tx, other: Tx, cfg: Config)
    requires tx.slot <= I64_MAX && Extends(db, after, tx, cfg) && other.signature != tx.signature
    ensures forall o :: o in EventsOf(other, cfg) ==> Has(after, o) == Has(db, o)
  {
    hide Projected, EventsOf;
    EventsSigned(tx, cfg);
    EventsSigned(other, cfg);
    SameEventSigned();
  }

  /** What is lost stays lost while other transactions are stored. */
  lemma LostUntouched(w: World, w': World, next: nat, i: nat, cfg: Config)
    requires DistinctSignatures(w.history) && next < |w.history| && i < |w.history| && i != next
    requires w'.history == w.history
    requires w'.db == w.db || (w.history[next].slot <= I64_MAX && Extends(w.db, w'.db, w.history[next], cfg))
    ensures Missing(w', i, cfg) == Missing(w, i, cfg)
  {
    hide EventsOf, Extends;
    if w'.db != w.db {
      OtherTxUntouched(w.db, w'.db, w.history[next], w.history[i], cfg);
    }
  }

  // ----- every run

  /** An unstored event lies between what the cursor stands for and the transaction. */
  ghost predicate MissingBefore(w: World, next: nat, cfg: Config)
    requires next <= |w.history|
  {
    exists i :: SkipFrom(w) <= i < next && Missing(w, i, cfg)
  }

  /** The step is about to move the cursor over an unstored event: the transaction it handles can be
      stored, its slot moves the cursor, and an unstored event lies before it. */
  ghost predicate Jumps(w: World, step: Step, cfg: Config) {
    match w.session
    case Replaying(_, next, end, _, _) =>
      && step.ReplayNext? && next < end && next < |w.history|
      && Storable(w.history[next], cfg) && MovesCursor(w.history[next], w.db.cursor) && MissingBefore(w, next, cfg)
    case Live(next, _) =>
      && step.Notify? && next < |w.history|
      && Notifiable(w.history[next], cfg) && NotifyMovesCursor(w.history[next], w.db.cursor)
      && MissingBefore(w, next, cfg)
    case _ => false
  }

  /** The covered stretch in terms of single transactions. */
  lemma CoveredIsNotLost(w: World, lo: nat, hi: nat, cfg: Config)
    requires hi <= |w.history|
    ensures Covered(w, lo, hi, cfg) <==> forall i :: lo <= i < hi ==> !Missing(w, i, cfg)
  {
    hide EventsOf, Has;
    forall i | lo <= i < hi
      ensures Ingestible(w.history[i], cfg) ==> (Committed(w.db, w.history[i], cfg) <==> !Missing(w, i, cfg))
    {
    }
  }

  /** What storing one transaction does to the coverage of the cursor. */
  lemma StoredCovers(w: World, w': World, next: nat, moves: bool, cfg: Config)
    requires WellFormed(w) && WellFormed(w') && CursorCovered(w, cfg) && next < |w.history|
    requires w'.history == w.history && w'.start == w.start
    requires w'.db == w.db || (w.history[next].slot <= I64_MAX && Extends(w.db, w'.db, w.history[next], cfg))
    requires Ingestible(w.history[next], cfg) ==> Committed(w'.db, w.history[next], cfg)
    requires if moves then w'.db.cursor.Some? && w'.db.cursor.value.signature == w.history[next].signature
             else w'.db.cursor == w.db.cursor
    ensures CursorCovered(w', cfg) <==> !(moves && MissingBefore(w, next, cfg))
  {
    hide IndexOf, DistinctSignatures, EventsOf, Extends, Has;
    IndexOfAt(w.history, next);
    forall i | 0 <= i < |w.history|
      ensures i != next ==> Missing(w', i, cfg) == Missing(w, i, cfg)
      ensures !Missing(w', next, cfg)
    {
      if i != next {
        LostUntouched(w, w', next, i, cfg);
      }
    }
    hide Missing, Ingestible, Committed;
    if w'.db.cursor.Some? {
      CoveredIsNotLost(w', Begin(w'), CursorIndex(w').value + 1, cfg);
    }
    if w.db.cursor.Some? {
      CoveredIsNotLost(w, Begin(w), CursorIndex(w).value + 1, cfg);
    }
  }

  lemma ReplayCovers(w: World, at: nat, cfg: Config)
    requires WellFormed(w) && CursorCovered(w, cfg) && w.session.Replaying?
    ensures CursorCovered(Next(w, ReplayNext(at), cfg), cfg) <==> !Jumps(w, ReplayNext(at), cfg)
  {
    hide IndexOf, DistinctSignatures, Extends, Covered, Ingestible, Committed, ReplayTx, MissingBefore, Storable;
    var next, w' := w.session.next, Next(w, ReplayNext(at), cfg);
    StepKeepsWellFormed(w, ReplayNext(at), cfg);
    if next < w.session.end && next < |w.history| {
      ReplaySucceedsExactly(w.db, w.history[next], cfg, at);
      if Storable(w.history[next], cfg) {
        ReplayEffect(w.db, w.history[next], cfg, at);
        ReplayCursor(w.db, w.history[next], cfg, at);
        StoredCovers(w, w', next, MovesCursor(w.history[next], w.db.cursor), cfg);
      } else {
        QuietCovers(w, ReplayNext(at), cfg);
      }
    } else {
      QuietCovers(w, ReplayNext(at), cfg);
    }
  }

  lemma NotifyCovers(w: World, observedAt: i64, at: nat, cfg: Config)
    requires WellFormed(w) && CursorCovered(w, cfg) && w.session.Live?
    ensures CursorCovered(Next(w, Notify(observedAt, at), cfg), cfg) <==> !Jumps(w, Notify(observedAt, at), cfg)
  {
    hide IndexOf, DistinctSignatures, Extends, Covered, Ingestible, Committed, NotifyTx, MissingBefore, Notifiable;
    var next, w' := w.session.next, Next(w, Notify(observedAt, at), cfg);
    StepKeepsWellFormed(w, Notify(observedAt, at), cfg);
    if next < |w.history| {
      NotifySucceedsExactly(w.db, w.history[next], cfg, observedAt, at);
      if Notifiable(w.history[next], cfg) {
        NotifyEffect(w.db, w.history[next], cfg, observedAt, at);
        NotifyCursor(w.db, w.history[next], cfg, observedAt, at);
        StoredCovers(w, w', next, NotifyMovesCursor(w.history[next], w.db.cursor), cfg);
      } else {
        QuietCovers(w, Notify(observedAt, at), cfg);
      }
    } else {
      QuietCovers(w, Notify(observedAt, at), cfg);
    }
  }

  lemma StepCovers(w: World, step: Step, cfg: Config)
    requires WellFormed(w) && CursorCovered(w, cfg)
    ensures CursorCovered(Next(w, step, cfg), cfg) <==> !Jumps(w, step, cfg)
  {
    hide CursorCovered, WellFormed, Storable, Notifiable, MovesCursor, NotifyMovesCursor, MissingBefore, ReplayTx,
         NotifyTx, StartOf;
    if step.ReplayNext? && w.session.Replaying? {
      ReplayCovers(w, step.at, cfg);
    } else if step.Notify? && w.session.Live? {
      NotifyCovers(w, step.observedAt, step.at, cfg);
    } else {
      if step.StartCatchup? && w.session.Subscribed? {
        StartFrame(w, cfg);
      }
      QuietCovers(w, step, cfg);
    }
  }

  lemma QuietCovers(w: World, step: Step, cfg: Config)
    requires WellFormed(w) && CursorCovered(w, cfg) && Next(w, step, cfg).db == w.db
    ensures CursorCovered(Next(w, step, cfg), cfg)
  {
    hide IndexOf, DistinctSignatures, Committed, Ingestible, ReplayTx, NotifyTx, Reach, Reaches;
    match step
    case Grow(tx) =>
      if IndexOf(w.history, tx.signature).None? {
        CursorGrow(w, tx);
      }
    case _ =>
  }

  /** Coverage over every run, outrun or not: the cursor always stands for what is stored, back to
      the first crawl's start, if and only if no step is about to move it over an unstored event. */
  lemma {:induction false} CoverageExactly(steps: seq<Step>, cfg: Config)
    ensures (forall k :: 0 <= k <= |steps| ==> CursorCovered(RunSteps(FRESH, steps[..k], cfg), cfg))
       <==> (forall k :: 0 <= k < |steps| ==> !Jumps(RunSteps(FRESH, steps[..k], cfg), steps[k], cfg))
  {
    hide RunSteps, Next, CursorCovered, Jumps, WellFormed;
    FreshIsSafe(cfg);
    FreshIsCovered(cfg);
    if steps != [] {
      var last := |steps| - 1;
      var shorter := steps[..last];
      CoverageExactly(shorter, cfg);
      assert forall k :: 0 <= k <= last ==> shorter[..k] == steps[..k];
      assert forall k :: 0 <= k < last ==> shorter[k] == steps[k];
      assert steps[..|steps|] == steps;
      RunsAreWellFormed(FRESH, shorter, cfg);
      RunLast(FRESH, steps, cfg);
      if CursorCovered(RunSteps(FRESH, shorter, cfg), cfg) {
        StepCovers(RunSteps(FRESH, shorter, cfg), steps[last], cfg);
      }
    }
  }

  lemma FreshIsCovered(cfg: Config)
    ensures RunSteps(FRESH, [], cfg) == FRESH && CursorCovered(FRESH, cfg)
  {
  }

  lemma RunLast(w: World, steps: seq<Step>, cfg: Config)
    requires steps != []
    ensures RunSteps(w, steps, cfg) == Next(RunSteps(w, steps[..|steps| - 1], cfg), steps[|steps| - 1], cfg)
  {
  }

  // ----- one catch-up, interrupted anywhere

  /** Replaying a stretch of the history stores that stretch, touches no other transaction, and moves
      the cursor into the stretch exactly when one of its transactions moves it. */
  lemma {:induction false} ReplayRange(w: World, first: nat, end: nat, cfg: Config, at: nat)
    requires DistinctSignatures(w.history) && first <= end <= |w.history|
    requires ReplayAll(w.db, w.history[first..end], cfg, at).Ok?
    ensures var w' := w.(db := ReplayAll(w.db, w.history[first..end], cfg, at).value);
            && (forall i :: first <= i < end ==> !Missing(w', i, cfg))
            && (forall i :: 0 <= i < |w.history| && !(first <= i < end) ==> Missing(w', i, cfg) == Missing(w, i, cfg))
            && (if AnyMoves(w, first, end)
                then w'.db.cursor.Some? && CursorIndex(w').Some? && first <= CursorIndex(w').value < end
                else w'.db.cursor == w.db.cursor)
    decreases end
  {
    hide ReplayTx, Extends, IndexOf, Missing, Ingestible, Committed, DistinctSignatures, MovesCursor;
    var h := w.history;
    if first < end {
      var last := end - 1;
      assert h[first..end][..|h[first..end]| - 1] == h[first..last];
      ReplayRange(w, first, last, cfg, at);
      var before := w.(db := ReplayAll(w.db, h[first..last], cfg, at).value);
      var after := w.(db := ReplayAll(w.db, h[first..end], cfg, at).value);
      ReplayStores(before, after, last, cfg, at);
    }
  }

  lemma ReplayStores(w: World, w': World, next: nat, cfg: Config, at: nat)
    requires DistinctSignatures(w.history) && next < |w.history|
    requires ReplayTx(w.db, w.history[next], cfg, at).Ok?
    requires w' == w.(db := ReplayTx(w.db, w.history[next], cfg, at).value)
    ensures !Missing(w', next, cfg)
    ensures forall i :: 0 <= i < |w.history| && i != next ==> Missing(w', i, cfg) == Missing(w, i, cfg)
    ensures if MovesCursor(w.history[next], w.db.cursor) then w'.db.cursor.Some? && CursorIndex(w') == Some(next)
            else w'.db.cursor == w.db.cursor
  {
    hide ReplayTx, Extends, IndexOf, DistinctSignatures, Has, EventsOf;
    ReplayEffect(w.db, w.history[next], cfg, at);
    ReplayCursor(w.db, w.history[next], cfg, at);
    IndexOfAt(w.history, next);
    forall i | 0 <= i < |w.history| && i != next
      ensures Missing(w', i, cfg) == Missing(w, i, cfg)
    {
      LostUntouched(w, w', next, i, cfg);
    }
  }

  /** A catch-up interrupted after any number of replays leaves the cursor standing for what is
      stored if and only if no replayed transaction moves the cursor as it stood when the crawl began,
      or no unstored event lies between that cursor and the newest transactions that the limit lets
      the crawl collect. Both can be read off before the first replay. */
  lemma GapDecides(w: World, n: nat, cfg: Config, at: nat, after: Db)
    requires WellFormed(w) && CursorCovered(w, cfg) && w.session.Subscribed?
    requires WindowStart(w, cfg) <= n <= |w.history|
    requires ReplayAll(w.db, w.history[WindowStart(w, cfg)..n], cfg, at) == Ok(after)
    ensures CursorCovered(StartOf(w, cfg).(db := after), cfg) <==>
              || !AnyMoves(w, WindowStart(w, cfg), n)
              || !exists i :: SkipFrom(w) <= i < |w.history| - Clamp(cfg.limit) && Missing(w, i, cfg)
  {
    var first := WindowStart(w, cfg);
    var w' := w.(db := after);
    var started := StartOf(w, cfg).(db := after);
    ReplayRange(w, first, n, cfg, at);
    SkippedBeforeWindow(w, cfg);
    hide IndexOf, DistinctSignatures, Missing, Covered, ReplayAll, WindowStart, WouldBail, Clamp, AnyMoves;
    SameLosses(w', started, cfg);
    if w.db.cursor.Some? {
      CoveredIsNotLost(w, Begin(w), CursorIndex(w).value + 1, cfg);
    }
    if after.cursor.Some? {
      CoveredIsNotLost(started, Begin(started), CursorIndex(started).value + 1, cfg);
    }
  }

  /** The stretch before the window, in numbers. */
  lemma SkippedBeforeWindow(w: World, cfg: Config)
    requires WellFormed(w)
    ensures SkipFrom(w) < WindowStart(w, cfg) || SkipFrom(w) < |w.history| - Clamp(cfg.limit) ==>
              WindowStart(w, cfg) == |w.history| - Clamp(cfg.limit)
  {
    WindowInNumbers(w, cfg);
    hide IndexOf, DistinctSignatures, Newest, Reach, Reaches, Clamp, CatchupReaches;
  }

  lemma SameLosses(w: World, w': World, cfg: Config)
    requires w'.history == w.history && w'.db == w.db
    ensures forall i :: 0 <= i < |w.history| ==> Missing(w', i, cfg) == Missing(w, i, cfg)
    ensures CursorIndex(w') == CursorIndex(w)
  {
    hide IndexOf, EventsOf, Has;
  }

  /** After any crawl whose newest transaction moved the cursor, the next one reaches it, so the
      restart after a bailed catch-up never bails for the same gap. */
  lemma RestartIsSilent(w: World, cfg: Config)
    requires DistinctSignatures(w.history) && w.db.cursor.Some? && CursorIndex(w) == Some(|w.history| - 1)
    ensures CatchupReaches(w, cfg) && !WouldBail(w, cfg)
  {
    CursorDistance(w);
    hide IndexOf, Newest;
  }

  /** Without a stored cursor the gap check never fires, whatever lies before the window. */
  lemma ColdCrawlIsUnchecked(w: World, cfg: Config)
    requires w.db.cursor.None?
    ensures !WouldBail(w, cfg)
  {
    hide IndexOf, Newest, Reach, Reaches;
  }


  // ----- a run that loses a transaction

  /** A successful transaction without events. */
  function Plain(n: u32): Tx {
    Tx(n, n, false, true, None, [])
  }

  lemma ReplayPlain(db: Db, n: u32, cfg: Config, at: nat)
    requires cfg.v2MinSlot == 0
    ensures ReplayTx(db, Plain(n), cfg, at) == Ok(db.(cursor := Advance(db.cursor, n, n)))
  {
  }

  /** A crawl limited to one transaction. */
  lemma CrawlOne(h: seq<Tx>, cursor: Option<Signature>)
    requires h != [] && DistinctSignatures(h)
    ensures Reach(Newest(h), 1, cursor) == 1
    ensures Reaches(Newest(h), 1, cursor) <==> cursor == Some(h[|h| - 1].signature)
  {
    NewestFacts(h);
    IndexOfAt(Newest(h), 0);
    hide IndexOf, DistinctSignatures, Newest;
    assert Newest(h)[0] == h[|h| - 1];
    CursorZero(Newest(h), cursor);
  }

  lemma CursorZero(h: seq<Tx>, cursor: Option<Signature>)
    requires h != [] && IndexOf(h, h[0].signature) == Some(0)
    ensures CursorAt(h, cursor) == Some(0) <==> cursor == Some(h[0].signature)
  {
    hide IndexOf;
  }

  /** The gap check fires nowhere in the run. */
  ghost predicate NeverBails(steps: seq<Step>, cfg: Config) {
    forall k :: 0 <= k <= |steps| ==>
      var session := RunSteps(FRESH, steps[..k], cfg).session;
      session.Replaying? ==> !session.bail
  }

  lemma RunPush(steps: seq<Step>, step: Step, cfg: Config)
    ensures RunSteps(FRESH, steps + [step], cfg) == Next(RunSteps(FRESH, steps, cfg), step, cfg)
    ensures var session := RunSteps(FRESH, steps + [step], cfg).session;
            NeverBails(steps, cfg) && (session.Replaying? ==> !session.bail) ==> NeverBails(steps + [step], cfg)
  {
    hide Next;
    assert (steps + [step])[..|steps|] == steps;
    assert (steps + [step])[..|steps| + 1] == steps + [step];
    assert forall k :: 0 <= k <= |steps| ==> (steps + [step])[..k] == steps[..k];
  }

  /** One uninterrupted catch-up over a crawl of one transaction, from an idle process. */
  lemma CatchupOne(steps: seq<Step>, n: u32, cfg: Config) returns (longer: seq<Step>)
    requires cfg.v2MinSlot == 0 && cfg.limit == 1
    requires var w := RunSteps(FRESH, steps, cfg);
             && w.session.Idle? && DistinctSignatures(w.history)
             && w.history != [] && w.history[|w.history| - 1] == Plain(n)
             && (w.db.cursor.Some? ==> w.db.cursor.value.slot <= n)
    ensures var w, w' := RunSteps(FRESH, steps, cfg), RunSteps(FRESH, longer, cfg);
            && w'.history == w.history && w'.db == w.db.(cursor := Some(Cursor(n, n)))
            && w'.start == (if w.start.Some? then w.start else Some(|w.history| - 1))
            && (if w.db.cursor.Some? && w.db.cursor.value.signature != n then w'.session.Idle? else w'.session.Live?)
            && (NeverBails(steps, cfg) && w.db.cursor.None? ==> NeverBails(longer, cfg))
  {
    hide RunSteps, ReplayTx, IndexOf, Reach, Reaches, DistinctSignatures, NeverBails;
    var w := RunSteps(FRESH, steps, cfg);
    CrawlOne(w.history, CursorSignature(w.db));
    ReplayPlain(w.db, n, cfg, 0);
    RunPush(steps, Subscribe, cfg);
    RunPush(steps + [Subscribe], StartCatchup, cfg);
    RunPush(steps + [Subscribe] + [StartCatchup], ReplayNext(0), cfg);
    RunPush(steps + [Subscribe] + [StartCatchup] + [ReplayNext(0)], FinishCatchup, cfg);
    longer := steps + [Subscribe] + [StartCatchup] + [ReplayNext(0)] + [FinishCatchup];
  }

  /** A concrete loss: with a limit of one, a transaction that carries an event and arrives during a
      downtime together with a later one is never stored. The first catch-up after the downtime
      bails; the next one finds the cursor and the process goes live with the gap behind it. */
  lemma SilentGap(missed: Tx, cfg: Config) returns (steps: seq<Step>)
    requires cfg.v2MinSlot == 0 && cfg.limit == 1
    requires Ingestible(missed, cfg) && missed.signature == 1 && EventsOf(missed, cfg) != []
    ensures var w := RunSteps(FRESH, steps, cfg);
            && w.history == [Plain(0), missed, Plain(2)] && w.start == Some(0)
            && w.session.Live? && w.db.cursor == Some(Cursor(2, 2))
            && Missing(w, 1, cfg) && !CursorCovered(w, cfg)
  {
    hide RunSteps, EventsOf, Next, IndexOf, DistinctSignatures, Ingestible, Plain, NeverBails, Missing, CursorCovered;
    var none: seq<Step> := [];
    FirstTx(cfg);
    RunPush(none, Grow(Plain(0)), cfg);
    var first := CatchupOne(none + [Grow(Plain(0))], 0, cfg);
    RunPush(first, Crash, cfg);
    CrashIdles(RunSteps(FRESH, first, cfg), cfg);
    RunPush(first + [Crash], Grow(missed), cfg);
    RunPush(first + [Crash] + [Grow(missed)], Grow(Plain(2)), cfg);
    var down := first + [Crash] + [Grow(missed)] + [Grow(Plain(2))];
    HistoryOfThree(missed, RunSteps(FRESH, first + [Crash], cfg), cfg);
    var bailed := CatchupOne(down, 2, cfg);
    steps := CatchupOne(bailed, 2, cfg);
    NothingStored(RunSteps(FRESH, steps, cfg), missed, cfg);
  }

  /** A second concrete loss, in which the gap check never fires: the first crawl crashes before it
      stores anything, so the next one finds no cursor and is not checked, however far the history
      has grown past its window. */
  lemma ColdGap(missed: Tx, cfg: Config) returns (steps: seq<Step>)
    requires cfg.v2MinSlot == 0 && cfg.limit == 1
    requires Ingestible(missed, cfg) && missed.signature == 1 && EventsOf(missed, cfg) != []
    ensures var w := RunSteps(FRESH, steps, cfg);
            && w.history == [Plain(0), missed, Plain(2)] && w.start == Some(0)
            && w.session.Live? && w.db.cursor == Some(Cursor(2, 2))
            && Missing(w, 1, cfg) && !CursorCovered(w, cfg)
    ensures NeverBails(steps, cfg)
  {
    hide RunSteps, EventsOf, Next, IndexOf, DistinctSignatures, Ingestible, Plain, NeverBails, Missing, CursorCovered;
    var none: seq<Step> := [];
    FirstTx(cfg);
    RunPush(none, Grow(Plain(0)), cfg);
    var crawled := none + [Grow(Plain(0))] + [Subscribe] + [StartCatchup];
    RunPush(none + [Grow(Plain(0))], Subscribe, cfg);
    RunPush(none + [Grow(Plain(0))] + [Subscribe], StartCatchup, cfg);
    ColdCrawl(RunSteps(FRESH, none + [Grow(Plain(0))], cfg), cfg);
    RunPush(crawled, Crash, cfg);
    CrashIdles(RunSteps(FRESH, crawled, cfg), cfg);
    RunPush(crawled + [Crash], Grow(missed), cfg);
    RunPush(crawled + [Crash] + [Grow(missed)], Grow(Plain(2)), cfg);
    HistoryOfThree(missed, RunSteps(FRESH, crawled + [Crash], cfg), cfg);
    steps := CatchupOne(crawled + [Crash] + [Grow(missed)] + [Grow(Plain(2))], 2, cfg);
    NothingStored(RunSteps(FRESH, steps, cfg), missed, cfg);
  }

  /** The first crawl over a single transaction, started but not replayed. */
  lemma ColdCrawl(w: World, cfg: Config)
    requires cfg.limit == 1 && w == FRESH.(history := [Plain(0)])
    ensures var w' := Next(Next(w, Subscribe, cfg), StartCatchup, cfg);
            w' == w.(start := Some(0), session := w'.session) && w'.session.Replaying? && !w'.session.bail
    ensures Next(w, Subscribe, cfg).session.Subscribed?
  {
    CrawlOne(w.history, None);
    hide IndexOf, Reach, Reaches, DistinctSignatures;
  }

  lemma FirstTx(cfg: Config)
    ensures RunSteps(FRESH, [], cfg) == FRESH
    ensures Next(FRESH, Grow(Plain(0)), cfg) == FRESH.(history := [Plain(0)])
    ensures DistinctSignatures([Plain(0)]) && NeverBails([], cfg)
  {
    var none: seq<Tx> := [];
    assert none + [Plain(0)] == [Plain(0)];
  }

  lemma CrashIdles(w: World, cfg: Config)
    ensures Next(w, Crash, cfg) == w.(session := Idle)
  {
  }

  lemma NothingStored(w: World, missed: Tx, cfg: Config)
    requires w.history == [Plain(0), missed, Plain(2)] && w.db.delivered == []
    requires w.start == Some(0) && w.db.cursor == Some(Cursor(2, 2))
    requires Ingestible(missed, cfg) && EventsOf(missed, cfg) != []
    ensures Missing(w, 1, cfg) && !CursorCovered(w, cfg)
  {
    hide EventsOf;
    assert CursorIndex(w) == Some(2);
    assert EventsOf(missed, cfg)[0] in EventsOf(missed, cfg);
    assert w.history[1] == missed;
  }

  lemma HistoryOfThree(missed: Tx, w: World, cfg: Config)
    requires w.history == [Plain(0)] && missed.signature == 1
    ensures Next(Next(w, Grow(missed), cfg), Grow(Plain(2)), cfg) == w.(history := [Plain(0), missed, Plain(2)])
    ensures Next(w, Grow(missed), cfg).session == w.session
    ensures DistinctSignatures([Plain(0), missed, Plain(2)])
  {
    assert [Plain(0)] + [missed] + [Plain(2)] == [Plain(0), missed, Plain(2)];
  }
}
