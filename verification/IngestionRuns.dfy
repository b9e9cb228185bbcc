/** The indexer process against a growing history: which transactions a crash, a restart or a
    reconnect can lose. */
module IngestionRuns {
  import opened Rust
  import opened LogExtraction
  import opened Crawl
  import opened Projection
  import opened Storage
  import opened Ingestion

  /** Where the process is. `from` is the length of the history when the subscription was made;
      `next` the transaction to store next; `end` where the crawl's snapshot ends; `frontier` is
      history: everything from the first crawl's start up to it has been handled. */
  datatype Session =
    | Idle
    | Subscribed(from: nat)
    | Replaying(from: nat, next: nat, end: nat, frontier: nat, bail: bool)
    | Live(next: nat, frontier: nat)

  /** The history oldest first, the database, and where the very first crawl started: it is set once
      and survives every crash. */
  datatype World = World(history: seq<Tx>, db: Db, start: Option<nat>, session: Session)

  datatype Step =
    | Grow(tx: Tx)
    | Subscribe
    | StartCatchup
    | ReplayNext(at: nat)
    | FinishCatchup
    | Notify(observedAt: i64, at: nat)
    | Crash

  function CursorIndex(w: World): Option<nat> {
    match w.db.cursor
    case None => None
    case Some(c) => IndexOf(w.history, c.signature)
  }

  function Max(a: nat, b: nat): nat {
    if a >= b then a else b
  }

  /** The oldest transaction of the crawl that would start now. */
  function WindowStart(w: World, cfg: Config): nat {
    |w.history| - Reach(Newest(w.history), cfg.limit, CursorSignature(w.db))
  }

  /** Whether the gap check would fire after the crawl that would start now. */
  predicate WouldBail(w: World, cfg: Config) {
    var cursor := CursorSignature(w.db);
    Bails(cursor, Reaches(Newest(w.history), cfg.limit, cursor), |w.history| - WindowStart(w, cfg), cfg.limit)
  }

  function StartOf(w: World, cfg: Config): World
    requires w.session.Subscribed?
  {
    var first := WindowStart(w, cfg);
    var frontier := match CursorIndex(w) case None => first case Some(c) => Max(first, c + 1);
    w.(start := if w.start.None? then Some(first) else w.start,
       session := Replaying(w.session.from, first, |w.history|, frontier, WouldBail(w, cfg)))
  }

  function Next(w: World, step: Step, cfg: Config): World {
    match step
    case Grow(tx) => if IndexOf(w.history, tx.signature).None? then w.(history := w.history + [tx]) else w
    case Crash => w.(session := Idle)
    case Subscribe => if w.session.Idle? then w.(session := Subscribed(|w.history|)) else w
    case StartCatchup => if w.session.Subscribed? then StartOf(w, cfg) else w
    case ReplayNext(at) =>
      if w.session.Replaying? && w.session.next < w.session.end && w.session.next < |w.history| then
        var next := w.session.next;
        match ReplayTx(w.db, w.history[next], cfg, at)
        case Ok(after) =>
          w.(db := after, session := w.session.(next := next + 1, frontier := Max(w.session.frontier, next + 1)))
        case Err(_) => w.(session := Idle)
      else w
    case FinishCatchup =>
      if w.session.Replaying? && w.session.next == w.session.end then
        w.(session := if w.session.bail then Idle else Live(w.session.from, w.session.frontier))
      else w
    case Notify(observedAt, at) =>
      if w.session.Live? && w.session.next < |w.history| then
        var next := w.session.next;
        match NotifyTx(w.db, w.history[next], cfg, observedAt, at)
        case Ok(after) =>
          w.(db := after, session := Live(next + 1, Max(w.session.frontier, next + 1)))
        case Err(_) => w.(session := Idle)
      else w
  }

  function RunSteps(w: World, steps: seq<Step>, cfg: Config): World {
    if steps == [] then w else Next(RunSteps(w, steps[..|steps| - 1], cfg), steps[|steps| - 1], cfg)
  }

  const FRESH := World([], EMPTY_DB, None, Idle)

  // ----- what must not be lost

  /** A successful transaction of the current event version: the only kind whose events count. */
  predicate Landed(tx: Tx, cfg: Config) {
    !tx.failed && cfg.v2MinSlot <= tx.slot
  }

  /** A landed transaction that the node can serve and the database can number. */
  predicate Ingestible(tx: Tx, cfg: Config) {
    Landed(tx, cfg) && tx.hasMeta && tx.slot <= I64_MAX
  }

  /** The events of a transaction's log, as observations without a block time. */
  function EventsOf(tx: Tx, cfg: Config): seq<Observation> {
    if tx.slot <= I64_MAX then Observe(tx.signature, tx.slot, None, Scan(tx.logs, cfg.target, [], 0).0, cfg.decode)
    else []
  }

  ghost predicate Has(db: Db, o: Observation) {
    exists d :: d in db.delivered && SameEvent(d.o, o)
  }

  /** All the events of the transaction have been stored. */
  ghost predicate Committed(db: Db, tx: Tx, cfg: Config) {
    tx.slot <= I64_MAX && forall o :: o in EventsOf(tx, cfg) ==> Has(db, o)
  }

  ghost predicate Covered(w: World, lo: nat, hi: nat, cfg: Config) {
    forall i :: lo <= i < hi && i < |w.history| && Ingestible(w.history[i], cfg) ==> Committed(w.db, w.history[i], cfg)
  }

  /** Where the first crawl started; before it, nothing is promised. */
  function Begin(w: World): nat {
    match w.start
    case None => |w.history|
    case Some(first) => first
  }

  /** The stored cursor is a transaction before `hi`. */
  ghost predicate CursorBefore(w: World, hi: nat) {
    w.db.cursor.Some? ==> CursorIndex(w).Some? && CursorIndex(w).value < hi
  }

  /** Everything at or before `hi` is handled and the cursor does not run ahead of it. */
  ghost predicate Frontier(w: World, hi: nat, cfg: Config) {
    hi <= |w.history| && Covered(w, Begin(w), hi, cfg) && CursorBefore(w, hi)
  }

  /** What holds of the process in every run, whatever is lost. */
  ghost predicate WellFormed(w: World) {
    && DistinctSignatures(w.history)
    && (w.db.cursor.Some? ==> w.start.Some? && CursorIndex(w).Some?)
    && Begin(w) <= |w.history|
    && match w.session
       case Idle => true
       case Subscribed(from) => from <= |w.history|
       case Replaying(from, next, end, _, _) => w.start.Some? && from <= end <= |w.history| && next <= end
       case Live(next, _) => w.start.Some? && next <= |w.history|
  }

  ghost predicate Safe(w: World, cfg: Config) {
    && WellFormed(w)
    && (exists hi :: Frontier(w, hi, cfg))
    && match w.session
       case Replaying(_, next, end, frontier, _) => next <= frontier && Frontier(w, frontier, cfg)
       case Live(next, frontier) => next <= frontier && Frontier(w, frontier, cfg)
       case _ => true
  }

  /** An ingestible transaction with an event that has not been stored. */
  ghost predicate Missing(w: World, i: nat, cfg: Config)
    requires i < |w.history|
  {
    Ingestible(w.history[i], cfg) && exists o :: o in EventsOf(w.history[i], cfg) && !Has(w.db, o)
  }

  /** The first transaction after everything a cursor stands for, or after where the first crawl
      started when there is no cursor. */
  function SkipFrom(w: World): nat {
    match CursorIndex(w)
    case None => Begin(w)
    case Some(c) => Max(c + 1, Begin(w))
  }

  /** Between the cursor and the window of the crawl that would start now there is nothing to store. */
  ghost predicate NothingSkipped(w: World, cfg: Config) {
    forall i :: SkipFrom(w) <= i < WindowStart(w, cfg) ==> !Missing(w, i, cfg)
  }

  /** The crawl about to start gets back to the stored cursor or, without one, to where the first
      crawl started. */
  predicate CatchupReaches(w: World, cfg: Config) {
    match w.db.cursor
    case Some(c) => Reaches(Newest(w.history), cfg.limit, Some(c.signature))
    case None => WindowStart(w, cfg) <= Begin(w)
  }

  // ----- one transaction

  predicate SameEvents(a: seq<Observation>, b: seq<Observation>) {
    |a| == |b| && forall i :: 0 <= i < |a| ==> SameEvent(a[i], b[i])
  }

  lemma {:induction false} ObserveTimes(
    signature: Signature, slot: i64, t: Option<i64>, t': Option<i64>, payloads: seq<(nat, string)>,
    decode: string -> Decoded)
    ensures SameEvents(Observe(signature, slot, t, payloads, decode), Observe(signature, slot, t', payloads, decode))
    ensures forall o :: o in Observe(signature, slot, t, payloads, decode) ==>
        o.signature == signature && o.slot == slot
  {
    if payloads != [] {
      ObserveTimes(signature, slot, t, t', payloads[..|payloads| - 1], decode);
    }
  }

  /** Storing a log stores its events and moves the cursor nowhere but to its transaction. */
  lemma IngestEffect(db: Db, tx: Tx, blockTime: Option<i64>, cfg: Config, at: nat)
    requires Landed(tx, cfg) && tx.slot <= I64_MAX
    requires IngestLogs(db, tx.signature, tx.slot, blockTime, tx.logs, cfg, at).Ok?
    ensures var after := IngestLogs(db, tx.signature, tx.slot, blockTime, tx.logs, cfg, at).value;
            Extends(db, after, tx, cfg) && Committed(after, tx, cfg)
  {
    hide Scan, StoreBatch, Advance, Rows;
    var payloads := Scan(tx.logs, cfg.target, [], 0).0;
    var os := Observe(tx.signature, tx.slot, blockTime, payloads, cfg.decode);
    ObserveTimes(tx.signature, tx.slot, blockTime, None, payloads, cfg.decode);
    AdvanceChoices(db.cursor, tx.signature, tx.slot);
    if os != [] {
      BatchStores(db, os, at);
      var after := StoreBatch(db, os, at).value;
      var es := EventsOf(tx, cfg);
      forall o | o in es
        ensures Has(after, o)
      {
        var i :| 0 <= i < |es| && es[i] == o;
        assert SameEvent(os[i], o);
        assert after.delivered[|db.delivered| + i] == Delivery(os[i], at);
        assert Delivery(os[i], at) in after.delivered;
      }
      forall d | d in after.delivered
        ensures d in db.delivered || exists o :: o in es && SameEvent(d.o, o)
      {
        var k :| 0 <= k < |after.delivered| && after.delivered[k] == d;
        if k < |db.delivered| {
          assert after.delivered[..|db.delivered|][k] == d;
        } else {
          var i := k - |db.delivered|;
          assert after.delivered[|db.delivered| + i] == Delivery(os[i], at);
          assert es[i] in es;
        }
      }
      assert forall d :: d in db.delivered ==> d in after.delivered[..|db.delivered|];
    }
  }

  lemma AdvanceChoices(cursor: Option<Cursor>, signature: Signature, slot: i64)
    ensures Advance(cursor, signature, slot) == cursor
        || Advance(cursor, signature, slot) == Some(Cursor(signature, slot))
  {
  }

  /** What storing one transaction may change: its own events are added, and only when it landed;
      the cursor stays or moves to it. */
  ghost predicate Extends(db: Db, after: Db, tx: Tx, cfg: Config)
    requires tx.slot <= I64_MAX
  {
    && (forall d :: d in db.delivered ==> d in after.delivered)
    && (forall d :: d in after.delivered ==>
          d in db.delivered || (Landed(tx, cfg) && exists o :: o in EventsOf(tx, cfg) && SameEvent(d.o, o)))
    && (after.cursor == db.cursor || (after.cursor.Some? && after.cursor.value.signature == tx.signature))
    && (Projected(db) ==> Projected(after))
  }

  lemma ReplayEffect(db: Db, tx: Tx, cfg: Config, at: nat)
    requires ReplayTx(db, tx, cfg, at).Ok?
    ensures var after := ReplayTx(db, tx, cfg, at).value;
            after == db || (tx.slot <= I64_MAX && Extends(db, after, tx, cfg))
    ensures Ingestible(tx, cfg) ==> Committed(ReplayTx(db, tx, cfg, at).value, tx, cfg)
  {
    hide IngestLogs, EventsOf, Advance, Committed, Projected;
    if !tx.failed && tx.hasMeta {
      AdvanceChoices(db.cursor, tx.signature, tx.slot);
      if tx.slot >= cfg.v2MinSlot {
        IngestEffect(db, tx, tx.blockTime, cfg, at);
      } else {
        ProjectedFrame(db, ReplayTx(db, tx, cfg, at).value);
      }
    }
  }

  lemma ProjectedFrame(db: Db, after: Db)
    requires after == db.(cursor := after.cursor)
    ensures Projected(db) ==> Projected(after)
  {
    hide Rows;
  }

  lemma NotifyEffect(db: Db, tx: Tx, cfg: Config, observedAt: i64, at: nat)
    requires NotifyTx(db, tx, cfg, observedAt, at).Ok?
    ensures tx.slot <= I64_MAX && Extends(db, NotifyTx(db, tx, cfg, observedAt, at).value, tx, cfg)
    ensures Ingestible(tx, cfg) ==> Committed(NotifyTx(db, tx, cfg, observedAt, at).value, tx, cfg)
  {
    hide IngestLogs, EventsOf, Advance, Committed, Projected;
    AdvanceChoices(db.cursor, tx.signature, tx.slot);
    if !tx.failed && tx.slot >= cfg.v2MinSlot {
      IngestEffect(db, tx, Some(observedAt), cfg, at);
    } else {
      ProjectedFrame(db, NotifyTx(db, tx, cfg, observedAt, at).value);
    }
  }

  // ----- what every run keeps

  lemma CursorGrow(w: World, tx: Tx)
    requires WellFormed(w) && IndexOf(w.history, tx.signature).None?
    ensures DistinctSignatures(w.history + [tx])
    ensures w.db.cursor.Some? ==> CursorIndex(w.(history := w.history + [tx])) == CursorIndex(w)
  {
    var h := w.history + [tx];
    if w.db.cursor.Some? {
      var c := CursorIndex(w).value;
      assert h[c] == w.history[c];
      IndexOfAt(h, c);
    }
  }

  /** A cursor that storing one transaction moves stands at that transaction. */
  lemma CursorStored(w: World, w': World, next: nat, cfg: Config)
    requires DistinctSignatures(w.history) && next < |w.history| && w'.history == w.history
    requires w'.db == w.db || (w.history[next].slot <= I64_MAX && Extends(w.db, w'.db, w.history[next], cfg))
    ensures w'.db.cursor == w.db.cursor || (w'.db.cursor.Some? && CursorIndex(w') == Some(next))
  {
    hide EventsOf, IndexOf, Projected, DistinctSignatures;
    IndexOfAt(w.history, next);
  }

  lemma StepKeepsWellFormed(w: World, step: Step, cfg: Config)
    requires WellFormed(w)
    ensures WellFormed(Next(w, step, cfg))
  {
    hide IndexOf, DistinctSignatures, ReplayTx, NotifyTx, Extends, Reach, Reaches, Newest, Ingestible;
    var w' := Next(w, step, cfg);
    match step
    case Grow(tx) =>
      if IndexOf(w.history, tx.signature).None? {
        CursorGrow(w, tx);
      }
    case ReplayNext(at) =>
      if w'.db != w.db {
        ReplayEffect(w.db, w.history[w.session.next], cfg, at);
        CursorStored(w, w', w.session.next, cfg);
      }
    case Notify(observedAt, at) =>
      if w'.db != w.db {
        NotifyEffect(w.db, w.history[w.session.next], cfg, observedAt, at);
        CursorStored(w, w', w.session.next, cfg);
      }
    case _ =>
  }

  lemma {:induction false} RunsAreWellFormed(w: World, steps: seq<Step>, cfg: Config)
    requires WellFormed(w)
    ensures WellFormed(RunSteps(w, steps, cfg))
  {
    hide Next, WellFormed;
    if steps != [] {
      RunsAreWellFormed(w, steps[..|steps| - 1], cfg);
      StepKeepsWellFormed(RunSteps(w, steps[..|steps| - 1], cfg), steps[|steps| - 1], cfg);
    }
  }

  // ----- the frontier

  /** Handling the transaction right at or below the frontier keeps it, and extends it by one. */
  lemma FrontierStep(w: World, w': World, next: nat, frontier: nat, cfg: Config)
    requires DistinctSignatures(w.history) && Frontier(w, frontier, cfg) && next <= frontier && next < |w.history|
    requires w'.history == w.history && w'.start == w.start
    requires w'.db == w.db || (w.history[next].slot <= I64_MAX && Extends(w.db, w'.db, w.history[next], cfg))
    requires Ingestible(w.history[next], cfg) ==> Committed(w'.db, w.history[next], cfg)
    ensures Frontier(w', Max(frontier, next + 1), cfg)
  {
    hide EventsOf, IndexOf, Projected, DistinctSignatures;
    var hi := Max(frontier, next + 1);
    forall i | Begin(w) <= i < hi && i < |w.history| && Ingestible(w.history[i], cfg)
      ensures Committed(w'.db, w.history[i], cfg)
    {
      if i != next {
        assert Committed(w.db, w.history[i], cfg);
      }
    }
    IndexOfAt(w.history, next);
  }

  lemma FrontierGrow(w: World, tx: Tx, hi: nat, cfg: Config)
    requires WellFormed(w) && IndexOf(w.history, tx.signature).None? && Frontier(w, hi, cfg)
    ensures Frontier(w.(history := w.history + [tx]), hi, cfg)
  {
    CursorGrow(w, tx);
    hide EventsOf, Committed, IndexOf, DistinctSignatures;
  }

  lemma NewestFacts(h: seq<Tx>)
    requires DistinctSignatures(h)
    ensures DistinctSignatures(Newest(h)) && |Newest(h)| == |h|
    ensures forall i :: 0 <= i < |h| ==> Newest(h)[i] == h[|h| - 1 - i]
  {
  }

  /** The cursor's distance in the newest-first crawl. */
  lemma CursorDistance(w: World)
    requires DistinctSignatures(w.history) && w.db.cursor.Some? && CursorIndex(w).Some?
    ensures CursorAt(Newest(w.history), CursorSignature(w.db)) == Some(|w.history| - 1 - CursorIndex(w).value)
  {
    var c := CursorIndex(w).value;
    var newest := Newest(w.history);
    NewestFacts(w.history);
    IndexOfAt(newest, |w.history| - 1 - c);
    hide IndexOf, DistinctSignatures;
    assert newest[|w.history| - 1 - c] == w.history[c];
  }

  /** The crawl in numbers a caller can see: it reaches the cursor exactly when the cursor is less
      than the clamped limit away, and otherwise its window is the newest `limit` transactions. */
  lemma WindowInNumbers(w: World, cfg: Config)
    requires WellFormed(w)
    ensures var size, first := |w.history|, WindowStart(w, cfg);
            match CursorIndex(w)
            case Some(c) =>
              && (CatchupReaches(w, cfg) <==> size - c <= Clamp(cfg.limit))
              && (CatchupReaches(w, cfg) ==>
                  first == Max(c - Min(c, OVERLAP), size - Min(size, Clamp(cfg.limit))) && first <= c)
              && (!CatchupReaches(w, cfg) ==> first == size - Clamp(cfg.limit) && first > c)
            case None => first == size - Min(size, Clamp(cfg.limit))
  {
    if w.db.cursor.Some? {
      CursorDistance(w);
    }
    hide IndexOf, DistinctSignatures, Newest;
  }

  lemma ReachingSkipsNothing(w: World, cfg: Config)
    requires WellFormed(w) && CatchupReaches(w, cfg)
    ensures NothingSkipped(w, cfg) && SkipFrom(w) >= WindowStart(w, cfg)
  {
    WindowInNumbers(w, cfg);
    hide IndexOf, DistinctSignatures, Newest, Missing, Reach, Reaches, Clamp;
  }

  lemma StartKeepsSafe(w: World, cfg: Config)
    requires Safe(w, cfg) && w.session.Subscribed? && NothingSkipped(w, cfg)
    ensures Safe(StartOf(w, cfg), cfg)
  {
    hide EventsOf, IndexOf, DistinctSignatures, Reach, Reaches, Newest;
    var w' := StartOf(w, cfg);
    StepKeepsWellFormed(w, StartCatchup, cfg);
    var hi :| Frontier(w, hi, cfg);
    forall i | Begin(w') <= i < w'.session.frontier && i < |w.history| && Ingestible(w.history[i], cfg)
      ensures Committed(w.db, w.history[i], cfg)
    {
      assert !Committed(w.db, w.history[i], cfg) ==> Missing(w, i, cfg);
    }
    assert Frontier(w', w'.session.frontier, cfg);
  }

  lemma SafeGrow(w: World, tx: Tx, cfg: Config)
    requires Safe(w, cfg) && IndexOf(w.history, tx.signature).None?
    ensures Safe(Next(w, Grow(tx), cfg), cfg)
  {
    hide EventsOf, IndexOf, Committed, DistinctSignatures, Frontier, Ingestible;
    StepKeepsWellFormed(w, Grow(tx), cfg);
    var hi :| Frontier(w, hi, cfg);
    FrontierGrow(w, tx, hi, cfg);
    if w.session.Replaying? || w.session.Live? {
      FrontierGrow(w, tx, w.session.frontier, cfg);
    }
  }

  /** Every step keeps the process safe, provided a catch-up that starts skips nothing. */
  lemma StepKeepsSafe(w: World, step: Step, cfg: Config)
    requires Safe(w, cfg) && (step.StartCatchup? && w.session.Subscribed? ==> NothingSkipped(w, cfg))
    ensures Safe(Next(w, step, cfg), cfg)
  {
    hide EventsOf, IndexOf, Committed, DistinctSignatures, Frontier, ReplayTx, NotifyTx, StartOf, Ingestible,
         NothingSkipped, Extends;
    StepKeepsWellFormed(w, step, cfg);
    var hi :| Frontier(w, hi, cfg);
    var w' := Next(w, step, cfg);
    match step
    case Grow(tx) =>
      if IndexOf(w.history, tx.signature).None? {
        SafeGrow(w, tx, cfg);
      }
    case StartCatchup =>
      if w.session.Subscribed? {
        StartKeepsSafe(w, cfg);
      }
    case ReplayNext(at) =>
      if w.session.Replaying? && w.session.next < w.session.end && w.session.next < |w.history| {
        var tx := w.history[w.session.next];
        if ReplayTx(w.db, tx, cfg, at).Ok? {
          ReplayEffect(w.db, tx, cfg, at);
          FrontierStep(w, w', w.session.next, w.session.frontier, cfg);
        } else {
          SessionFrame(w, w', hi, cfg);
        }
      }
    case Notify(observedAt, at) =>
      if w.session.Live? && w.session.next < |w.history| {
        var tx := w.history[w.session.next];
        if NotifyTx(w.db, tx, cfg, observedAt, at).Ok? {
          NotifyEffect(w.db, tx, cfg, observedAt, at);
          FrontierStep(w, w', w.session.next, w.session.frontier, cfg);
        } else {
          SessionFrame(w, w', hi, cfg);
        }
      }
    case _ =>
      SessionFrame(w, w', hi, cfg);
      if w.session.Replaying? {
        SessionFrame(w, w', w.session.frontier, cfg);
      }
  }

  lemma SessionFrame(w: World, w': World, hi: nat, cfg: Config)
    requires Frontier(w, hi, cfg) && w' == w.(session := w'.session)
    ensures Frontier(w', hi, cfg)
  {
    hide EventsOf, IndexOf, Committed;
  }

  // ----- runs

  /** No catch-up of the run, when it starts, leaves an unstored event before its window. */
  ghost predicate NeverSkips(w: World, steps: seq<Step>, cfg: Config) {
    forall k :: 0 <= k < |steps| && steps[k].StartCatchup? ==>
      var before := RunSteps(w, steps[..k], cfg);
      before.session.Subscribed? ==> NothingSkipped(before, cfg)
  }

  /** No catch-up of the run is outrun: each gets back to the cursor or to the first crawl's start. */
  ghost predicate NeverOutrun(w: World, steps: seq<Step>, cfg: Config) {
    forall k :: 0 <= k < |steps| && steps[k].StartCatchup? ==>
      var before := RunSteps(w, steps[..k], cfg);
      before.session.Subscribed? ==> CatchupReaches(before, cfg)
  }

  lemma NeverOutrunNeverSkips(steps: seq<Step>, cfg: Config)
    requires NeverOutrun(FRESH, steps, cfg)
    ensures NeverSkips(FRESH, steps, cfg)
  {
    hide RunSteps, CatchupReaches, NothingSkipped, WellFormed;
    FreshIsSafe(cfg);
    forall k | 0 <= k < |steps| && steps[k].StartCatchup?
      ensures var before := RunSteps(FRESH, steps[..k], cfg);
              before.session.Subscribed? ==> NothingSkipped(before, cfg)
    {
      RunsAreWellFormed(FRESH, steps[..k], cfg);
      var before := RunSteps(FRESH, steps[..k], cfg);
      if before.session.Subscribed? {
        ReachingSkipsNothing(before, cfg);
      }
    }
  }

  /** Crash safety over every run: whatever crashes, failures, reconnects and growth happen between
      two storage transactions, every ingestible transaction at or older than the stored cursor,
      back to the start of the very first crawl, has been stored, provided no catch-up starts with
      an unstored event between the cursor and its window. */
  lemma {:induction false} CrashSafe(steps: seq<Step>, cfg: Config)
    requires NeverSkips(FRESH, steps, cfg)
    ensures Safe(RunSteps(FRESH, steps, cfg), cfg)
  {
    hide Next, NothingSkipped, Frontier, WellFormed;
    if steps == [] {
      FreshIsSafe(cfg);
    } else {
      var shorter := steps[..|steps| - 1];
      assert NeverSkips(FRESH, shorter, cfg) by {
        assert forall k :: 0 <= k < |shorter| ==> shorter[..k] == steps[..k] && shorter[k] == steps[k];
      }
      CrashSafe(shorter, cfg);
      StepKeepsSafe(RunSteps(FRESH, shorter, cfg), steps[|steps| - 1], cfg);
    }
  }

  lemma FreshIsSafe(cfg: Config)
    ensures Safe(FRESH, cfg) && WellFormed(FRESH)
  {
    assert Frontier(FRESH, 0, cfg);
  }

  /** Everything at or older than the cursor, back to the first crawl's start, is stored. */
  ghost predicate CursorCovered(w: World, cfg: Config) {
    w.db.cursor.Some? ==> CursorIndex(w).Some? && Covered(w, Begin(w), CursorIndex(w).value + 1, cfg)
  }

  /** What safety means for a reader of the database. */
  lemma SafeMeansCursorCovered(w: World, cfg: Config)
    requires Safe(w, cfg)
    ensures CursorCovered(w, cfg)
  {
    hide EventsOf, IndexOf, Committed;
    var hi :| Frontier(w, hi, cfg);
  }

  /** A catch-up that ends without bailing leaves no gap up to the end of its crawl. */
  lemma FinishedCatchupHasNoGap(w: World, cfg: Config)
    requires Safe(w, cfg) && w.session.Replaying? && w.session.next == w.session.end && !w.session.bail
    ensures Next(w, FinishCatchup, cfg).session.Live?
    ensures Covered(Next(w, FinishCatchup, cfg), Begin(w), w.session.end, cfg)
  {
    hide EventsOf, IndexOf, Committed;
  }

  // ----- what the database holds

  /** The observation was read from a landed transaction of the history. */
  ghost predicate Genuine(h: seq<Tx>, o: Observation, cfg: Config) {
    exists i :: 0 <= i < |h| && Landed(h[i], cfg) && o.(blockTime := None) in EventsOf(h[i], cfg)
  }

  /** The positions table is the projection of what was delivered, and only genuine events were. */
  ghost predicate Faithful(w: World, cfg: Config) {
    Projected(w.db) && forall d :: d in w.db.delivered ==> Genuine(w.history, d.o, cfg)
  }

  lemma EventsHaveNoTime(tx: Tx, o: Observation, other: Observation, cfg: Config)
    requires o in EventsOf(tx, cfg) && SameEvent(other, o)
    ensures other.(blockTime := None) == o
  {
    hide Scan;
    ObserveNoTime(tx.signature, tx.slot, Scan(tx.logs, cfg.target, [], 0).0, cfg.decode);
  }

  lemma {:induction false} ObserveNoTime(
    signature: Signature, slot: i64, payloads: seq<(nat, string)>, decode: string -> Decoded)
    ensures forall o :: o in Observe(signature, slot, None, payloads, decode) ==> o.blockTime == None
  {
    if payloads != [] {
      ObserveNoTime(signature, slot, payloads[..|payloads| - 1], decode);
    }
  }

  lemma ExtendsFaithful(w: World, w': World, i: nat, cfg: Config)
    requires Faithful(w, cfg) && w'.history == w.history
    requires i < |w.history| && w.history[i].slot <= I64_MAX && Extends(w.db, w'.db, w.history[i], cfg)
    ensures Faithful(w', cfg)
  {
    hide EventsOf, Projected;
    var tx := w.history[i];
    forall d | d in w'.db.delivered
      ensures Genuine(w'.history, d.o, cfg)
    {
      if d !in w.db.delivered {
        var o :| o in EventsOf(tx, cfg) && SameEvent(d.o, o);
        EventsHaveNoTime(tx, o, d.o, cfg);
      }
    }
  }

  lemma GenuineGrow(h: seq<Tx>, tx: Tx, o: Observation, cfg: Config)
    requires Genuine(h, o, cfg)
    ensures Genuine(h + [tx], o, cfg)
  {
    hide EventsOf;
    var i :| 0 <= i < |h| && Landed(h[i], cfg) && o.(blockTime := None) in EventsOf(h[i], cfg);
    assert (h + [tx])[i] == h[i];
  }

  lemma StepKeepsFaithful(w: World, step: Step, cfg: Config)
    requires Faithful(w, cfg)
    ensures Faithful(Next(w, step, cfg), cfg)
  {
    hide EventsOf, IndexOf, ReplayTx, NotifyTx, StartOf, Projected, Extends, Genuine;
    var w' := Next(w, step, cfg);
    match step
    case Grow(tx) =>
      forall d | d in w.db.delivered
        ensures Genuine(w.history + [tx], d.o, cfg)
      {
        GenuineGrow(w.history, tx, d.o, cfg);
      }
    case StartCatchup => if w.session.Subscribed? { StartFrame(w, cfg); }
    case ReplayNext(at) =>
      if w'.db != w.db {
        ReplayEffect(w.db, w.history[w.session.next], cfg, at);
        ExtendsFaithful(w, w', w.session.next, cfg);
      }
    case Notify(observedAt, at) =>
      if w'.db != w.db {
        NotifyEffect(w.db, w.history[w.session.next], cfg, observedAt, at);
        ExtendsFaithful(w, w', w.session.next, cfg);
      }
    case _ =>
  }

  lemma StartFrame(w: World, cfg: Config)
    requires w.session.Subscribed?
    ensures StartOf(w, cfg).db == w.db && StartOf(w, cfg).history == w.history
  {
  }

  /** Faithfulness needs no assumption: it holds in every run, outrun or not. */
  lemma {:induction false} RunsAreFaithful(steps: seq<Step>, cfg: Config)
    ensures Faithful(RunSteps(FRESH, steps, cfg), cfg)
  {
    hide Next, Genuine;
    if steps != [] {
      RunsAreFaithful(steps[..|steps| - 1], cfg);
      StepKeepsFaithful(RunSteps(FRESH, steps[..|steps| - 1], cfg), steps[|steps| - 1], cfg);
    }
  }

  lemma StoringKeepsRecorded(db: Db, tx: Tx, cfg: Config, observedAt: i64, at: nat)
    requires Recorded(db)
    ensures ReplayTx(db, tx, cfg, at).Ok? ==> Recorded(ReplayTx(db, tx, cfg, at).value)
    ensures NotifyTx(db, tx, cfg, observedAt, at).Ok? ==> Recorded(NotifyTx(db, tx, cfg, observedAt, at).value)
  {
    hide Recorded, Advance, IngestLogs;
    if tx.slot <= I64_MAX {
      CursorKeepsRecorded(db, Advance(db.cursor, tx.signature, tx.slot));
      LogsKeepRecorded(db, tx, tx.blockTime, cfg, at);
      LogsKeepRecorded(db, tx, Some(observedAt), cfg, at);
    }
  }

  lemma LogsKeepRecorded(db: Db, tx: Tx, blockTime: Option<i64>, cfg: Config, at: nat)
    requires Recorded(db) && tx.slot <= I64_MAX
    ensures var r := IngestLogs(db, tx.signature, tx.slot, blockTime, tx.logs, cfg, at);
            r.Ok? ==> Recorded(r.value)
  {
    hide Recorded, Advance, Scan, StoreBatch;
    var os := Observe(tx.signature, tx.slot, blockTime, Scan(tx.logs, cfg.target, [], 0).0, cfg.decode);
    CursorKeepsRecorded(db, Advance(db.cursor, tx.signature, tx.slot));
    if StoreBatch(db, os, at).Ok? {
      BatchKeepsRecorded(db, os, at);
    }
  }

  /** In every run the event tables hold exactly what was delivered. */
  lemma {:induction false} RunsAreRecorded(steps: seq<Step>, cfg: Config)
    ensures Recorded(RunSteps(FRESH, steps, cfg).db)
  {
    hide ReplayTx, NotifyTx, Recorded, StartOf;
    if steps == [] {
      EmptyIsRecorded();
    } else {
      var w, step := RunSteps(FRESH, steps[..|steps| - 1], cfg), steps[|steps| - 1];
      RunsAreRecorded(steps[..|steps| - 1], cfg);
      match step
      case StartCatchup => if w.session.Subscribed? { StartFrame(w, cfg); }
      case ReplayNext(at) =>
        if w.session.Replaying? && w.session.next < |w.history| {
          StoringKeepsRecorded(w.db, w.history[w.session.next], cfg, 0, at);
        }
      case Notify(observedAt, at) =>
        if w.session.Live? && w.session.next < |w.history| {
          StoringKeepsRecorded(w.db, w.history[w.session.next], cfg, observedAt, at);
        }
      case _ =>
    }
  }

  /** So in every run an event that was delivered once can be delivered again, at another time or with
      another block time, without changing any event table. */
  lemma RunsCountOnce(steps: seq<Step>, cfg: Config, o: Observation, again: Observation, at: nat, at': nat)
    requires Delivery(o, at) in RunSteps(FRESH, steps, cfg).db.delivered && SameEvent(o, again)
    ensures var db := RunSteps(FRESH, steps, cfg).db;
            var stored := StoreObservation(db, again, at');
            && stored.Ok?
            && stored.value.transactions == db.transactions && stored.value.instructions == db.instructions
            && stored.value.liquidity == db.liquidity && stored.value.fees == db.fees
  {
    hide RunSteps, Recorded, StoreObservation;
    RunsAreRecorded(steps, cfg);
    RedeliveryCountsOnce(RunSteps(FRESH, steps, cfg).db, o, again, at, at');
  }

  lemma EmptyIsRecorded()
    ensures Recorded(EMPTY_DB)
  {
  }
}
