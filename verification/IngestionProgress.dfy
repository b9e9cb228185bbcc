/** When a restarted indexer can catch up with its history at all. A transaction that the database
    cannot store is retried by every catch-up whose window holds it, and a window that moves no
    cursor is crawled again for ever. */
module IngestionProgress {
  import opened Rust
  import opened LogExtraction
  import opened Crawl
  import opened Projection
  import opened Storage
  import opened Ingestion
  import opened IngestionRuns
  import opened Replay

  // ----- one session

  predicate CaughtUp(w: World) {
    w.session.Live? && w.session.next == |w.history|
  }

  predicate NoGrowth(steps: seq<Step>) {
    forall i :: 0 <= i < |steps| ==> !steps[i].Grow?
  }

  lemma {:induction false} RunConcat(w: World, a: seq<Step>, b: seq<Step>, cfg: Config)
    ensures RunSteps(w, a + b, cfg) == RunSteps(RunSteps(w, a, cfg), b, cfg)
  {
    hide Next;
    if b == [] {
      assert a + b == a;
    } else {
      assert (a + b)[..|a + b| - 1] == a + b[..|b| - 1];
      RunConcat(w, a, b[..|b| - 1], cfg);
    }
  }

  lemma RunOne(w: World, step: Step, cfg: Config)
    ensures RunSteps(w, [step], cfg) == Next(w, step, cfg)
  {
    hide Next;
    assert [step][..0] == [];
    assert RunSteps(w, [], cfg) == w;
  }

  /** The stored cursor is one of the transactions from `lo` on. */
  predicate StandsFrom(w: World, lo: nat) {
    w.db.cursor.Some? && exists i :: lo <= i < |w.history| && w.history[i].signature == w.db.cursor.value.signature
  }

  /** The replay of a window of storable transactions runs to its end; the cursor ends inside when
      it began there or when a transaction moves it. */
  lemma {:induction false} ReplaysToEnd(w: World, lo: nat, cfg: Config) returns (steps: seq<Step>)
    requires w.session.Replaying? && lo <= w.session.next <= w.session.end <= |w.history|
    requires forall i :: w.session.next <= i < w.session.end ==> Storable(w.history[i], cfg)
    ensures forall i :: 0 <= i < |steps| ==> steps[i].ReplayNext?
    ensures var w' := RunSteps(w, steps, cfg);
            && w' == w.(db := w'.db, session := w'.session)
            && w'.session.Replaying? && w'.session.next == w.session.end && w'.session.end == w.session.end
            && w'.session.from == w.session.from && w'.session.bail == w.session.bail
            && (StandsFrom(w, lo)
                || (exists i :: w.session.next <= i < w.session.end && MovesCursor(w.history[i], w.db.cursor))
                ==> StandsFrom(w', lo))
    decreases w.session.end - w.session.next
  {
    hide ReplayTx, Storable;
    steps := [];
    if w.session.next < w.session.end {
      var next := w.session.next;
      ReplaySucceedsExactly(w.db, w.history[next], cfg, 0);
      ReplayCursor(w.db, w.history[next], cfg, 0);
      var w1 := Next(w, ReplayNext(0), cfg);
      var rest := ReplaysToEnd(w1, lo, cfg);
      steps := [ReplayNext(0)] + rest;
      RunConcat(w, [ReplayNext(0)], rest, cfg);
      RunOne(w, ReplayNext(0), cfg);
      assert MovesCursor(w.history[next], w.db.cursor) ==> StandsFrom(w1, lo);
      assert !MovesCursor(w.history[next], w.db.cursor) ==> w1.db.cursor == w.db.cursor;
    }
  }

  /** Every transaction in the window of the next crawl can be replayed. */
  ghost predicate WindowStorable(w: World, cfg: Config) {
    forall i :: WindowStart(w, cfg) <= i < |w.history| ==> Storable(w.history[i], cfg)
  }

  /** A transaction in the window of the next crawl moves the cursor. */
  predicate WindowMoves(w: World, cfg: Config) {
    AnyMoves(w, WindowStart(w, cfg), |w.history|)
  }

  /** A session subscribes and starts its one catch-up. */
  predicate OneStart(steps: seq<Step>) {
    |steps| >= 2 && steps[0] == Subscribe && forall i :: 0 <= i < |steps| && steps[i].StartCatchup? ==> i == 1
  }

  /** One whole session over a storable window: it goes live, or it bails with the cursor moved into
      the window if anything in there moves it. */
  lemma OneSession(w: World, cfg: Config) returns (steps: seq<Step>)
    requires WellFormed(w) && w.session.Idle? && WindowStorable(w, cfg)
    ensures NoGrowth(steps) && OneStart(steps)
    ensures var w' := RunSteps(w, steps, cfg);
            && w'.history == w.history && WellFormed(w')
            && w'.start == (if w.start.Some? then w.start else Some(WindowStart(w, cfg)))
            && (if WouldBail(w, cfg) then w'.session.Idle? else CaughtUp(w'))
            && (WindowMoves(w, cfg) ==> StandsFrom(w', WindowStart(w, cfg)))
  {
    hide ReplayTx, Storable, Reach, Reaches, Newest, IndexOf, DistinctSignatures, RunSteps;
    var w1 := w.(session := Subscribed(|w.history|));
    SameWindow(w, w1, cfg);
    var replay := ReplaysToEnd(StartOf(w1, cfg), WindowStart(w, cfg), cfg);
    SessionRuns(w, replay, cfg);
    steps := [Subscribe, StartCatchup] + replay + [FinishCatchup];
    RunsAreWellFormed(w, steps, cfg);
  }

  lemma SessionRuns(w: World, replay: seq<Step>, cfg: Config)
    requires w.session.Idle?
    ensures RunSteps(w, [Subscribe, StartCatchup] + replay + [FinishCatchup], cfg)
         == Next(RunSteps(StartOf(w.(session := Subscribed(|w.history|)), cfg), replay, cfg), FinishCatchup, cfg)
  {
    hide RunSteps, StartOf;
    var w1 := w.(session := Subscribed(|w.history|));
    assert [Subscribe] + [StartCatchup] == [Subscribe, StartCatchup];
    RunOne(w, Subscribe, cfg);
    RunOne(w1, StartCatchup, cfg);
    RunConcat(w, [Subscribe], [StartCatchup], cfg);
    RunConcat(w, [Subscribe, StartCatchup], replay, cfg);
    RunConcat(w, [Subscribe, StartCatchup] + replay, [FinishCatchup], cfg);
    RunOne(RunSteps(StartOf(w1, cfg), replay, cfg), FinishCatchup, cfg);
  }

  /** The window depends on the history and the cursor alone. */
  lemma SameWindow(w: World, w': World, cfg: Config)
    requires w'.history == w.history && w'.db.cursor == w.db.cursor
    ensures WindowStart(w', cfg) == WindowStart(w, cfg) && WouldBail(w', cfg) == WouldBail(w, cfg)
    ensures CursorIndex(w') == CursorIndex(w)
  {
    hide Reach, Reaches, Newest, IndexOf;
  }

  /** A cursor inside the widest window is reached, and the window it gives starts no later than it. */
  lemma InsideIsReached(w: World, lo: nat, cfg: Config)
    requires WellFormed(w) && StandsFrom(w, lo) && |w.history| - Clamp(cfg.limit) <= lo
    ensures !WouldBail(w, cfg) && |w.history| - Clamp(cfg.limit) <= WindowStart(w, cfg)
    ensures CursorIndex(w).Some? && lo <= CursorIndex(w).value && WindowStart(w, cfg) <= CursorIndex(w).value
  {
    var i :| lo <= i < |w.history| && w.history[i].signature == w.db.cursor.value.signature;
    IndexOfAt(w.history, i);
    WindowInNumbers(w, cfg);
    hide IndexOf, DistinctSignatures, Newest, Reach, Reaches, Clamp;
  }

  /** No window is wider than the limit. */
  lemma WindowWithinLimit(w: World, cfg: Config)
    requires WellFormed(w)
    ensures |w.history| - Clamp(cfg.limit) <= WindowStart(w, cfg) <= |w.history|
  {
    WindowInNumbers(w, cfg);
    hide IndexOf, DistinctSignatures, Newest, Reach, Reaches, Clamp;
  }

  // ----- whether any number of sessions gets to the end

  /** The window of the next crawl can be stored and, if its gap check would fire, moves the cursor. */
  ghost predicate CanCatchUp(w: World, cfg: Config) {
    WindowStorable(w, cfg) && (WouldBail(w, cfg) ==> WindowMoves(w, cfg))
  }

  /** At most two sessions are needed: one that bails moves the cursor to where the next finds it. */
  lemma CatchesUp(w: World, cfg: Config) returns (steps: seq<Step>)
    requires WellFormed(w) && w.session.Idle? && CanCatchUp(w, cfg)
    ensures NoGrowth(steps) && CaughtUp(RunSteps(w, steps, cfg))
  {
    hide WindowStorable, WindowMoves, WouldBail, WellFormed, StandsFrom, RunSteps;
    steps := OneSession(w, cfg);
    if WouldBail(w, cfg) {
      var w1 := RunSteps(w, steps, cfg);
      WindowWithinLimit(w, cfg);
      InsideIsReached(w1, WindowStart(w, cfg), cfg);
      WindowWithinLimit(w1, cfg);
      LaterWindow(w, w1, cfg);
      var second := OneSession(w1, cfg);
      RunConcat(w, steps, second, cfg);
      steps := steps + second;
    }
  }

  /** When the gap check fires the window is as wide as the limit, so no later window over the same
      history starts before it. */
  lemma LaterWindow(w: World, w': World, cfg: Config)
    requires WellFormed(w) && WellFormed(w') && WouldBail(w, cfg) && w'.history == w.history
    ensures WindowStorable(w, cfg) ==> WindowStorable(w', cfg)
  {
    WindowInNumbers(w, cfg);
    WindowWithinLimit(w', cfg);
    hide IndexOf, DistinctSignatures, Newest, Reach, Clamp, Storable;
  }

  /** A transaction that cannot be stored is in the window of every crawl to come. */
  ghost predicate Stuck(w: World, p: nat, cfg: Config) {
    && WellFormed(w)
    && p < |w.history| && !Storable(w.history[p], cfg)
    && WindowStart(w, cfg) <= p
    && match w.session
       case Idle => true
       case Subscribed(_) => true
       case Replaying(_, next, end, _, _) => next <= p && end == |w.history| && |w.history| - Clamp(cfg.limit) <= next
       case Live(_, _) => false
  }

  lemma StuckStaysStuck(w: World, step: Step, p: nat, cfg: Config)
    requires Stuck(w, p, cfg) && !step.Grow?
    ensures Stuck(Next(w, step, cfg), p, cfg) && Next(w, step, cfg).history == w.history
  {
    hide ReplayTx, Storable, Reach, Reaches, Newest, IndexOf, DistinctSignatures, MovesCursor, StandsFrom, Clamp;
    var w' := Next(w, step, cfg);
    StepKeepsWellFormed(w, step, cfg);
    match step
    case ReplayNext(at) =>
      if w.session.Replaying? {
        StuckReplay(w, at, p, cfg);
      }
    case StartCatchup =>
      WindowWithinLimit(w, cfg);
      SameWindow(w, w', cfg);
    case _ => SameWindow(w, w', cfg);
  }

  lemma StuckReplay(w: World, at: nat, p: nat, cfg: Config)
    requires Stuck(w, p, cfg) && w.session.Replaying?
    ensures Stuck(Next(w, ReplayNext(at), cfg), p, cfg) && Next(w, ReplayNext(at), cfg).history == w.history
  {
    hide ReplayTx, Storable, WindowStart, IndexOf, DistinctSignatures, MovesCursor, Clamp;
    var next, w' := w.session.next, Next(w, ReplayNext(at), cfg);
    StepKeepsWellFormed(w, ReplayNext(at), cfg);
    ReplaySucceedsExactly(w.db, w.history[next], cfg, at);
    if next < p {
      SameWindow(w, w.(session := w'.session), cfg);
      if ReplayTx(w.db, w.history[next], cfg, at).Ok? {
        ReplayCursor(w.db, w.history[next], cfg, at);
        if MovesCursor(w.history[next], w.db.cursor) {
          IndexOfAt(w.history, next);
          assert StandsFrom(w', next);
          InsideIsReached(w', next, cfg);
        } else {
          SameWindow(w, w', cfg);
        }
      }
    } else {
      SameWindow(w, w', cfg);
    }
  }

  /** The gap check fires on every crawl to come, and none moves the cursor. */
  ghost predicate Stalled(w: World, cfg: Config) {
    && WellFormed(w) && WouldBail(w, cfg) && !WindowMoves(w, cfg)
    && match w.session
       case Idle => true
       case Subscribed(_) => true
       case Replaying(_, next, _, _, bail) => bail && WindowStart(w, cfg) <= next
       case Live(_, _) => false
  }

  lemma StalledStaysStalled(w: World, step: Step, cfg: Config)
    requires Stalled(w, cfg) && !step.Grow?
    ensures Stalled(Next(w, step, cfg), cfg) && Next(w, step, cfg).history == w.history
  {
    hide ReplayTx, WindowStart, WouldBail, MovesCursor, IndexOf, DistinctSignatures;
    var w' := Next(w, step, cfg);
    StepKeepsWellFormed(w, step, cfg);
    if step.ReplayNext? && w'.db != w.db {
      ReplayCursor(w.db, w.history[w.session.next], cfg, step.at);
    }
    SameWindow(w, w', cfg);
  }

  lemma {:induction false} StuckForEver(w: World, steps: seq<Step>, p: nat, cfg: Config)
    requires Stuck(w, p, cfg) && NoGrowth(steps)
    ensures Stuck(RunSteps(w, steps, cfg), p, cfg)
  {
    hide Next, Stuck;
    if steps != [] {
      StuckForEver(w, steps[..|steps| - 1], p, cfg);
      StuckStaysStuck(RunSteps(w, steps[..|steps| - 1], cfg), steps[|steps| - 1], p, cfg);
    }
  }

  lemma {:induction false} StalledForEver(w: World, steps: seq<Step>, cfg: Config)
    requires Stalled(w, cfg) && NoGrowth(steps)
    ensures Stalled(RunSteps(w, steps, cfg), cfg)
  {
    hide Next, Stalled;
    if steps != [] {
      StalledForEver(w, steps[..|steps| - 1], cfg);
      StalledStaysStalled(RunSteps(w, steps[..|steps| - 1], cfg), steps[|steps| - 1], cfg);
    }
  }

  /** Progress, exactly: from a restart, some steps over the history as it stands take the process to
      its end if and only if the next crawl's window can be stored and, when its gap check would
      fire, holds a transaction that moves the cursor. No crash, retry or reconnect helps otherwise. */
  lemma ProgressExactly(w: World, cfg: Config)
    requires WellFormed(w) && w.session.Idle?
    ensures (exists steps :: NoGrowth(steps) && CaughtUp(RunSteps(w, steps, cfg))) <==> CanCatchUp(w, cfg)
  {
    hide WellFormed, RunSteps, WouldBail, WindowMoves, WindowStart, Storable, NoGrowth;
    if CanCatchUp(w, cfg) {
      var steps := CatchesUp(w, cfg);
    }
    forall steps | NoGrowth(steps) && CaughtUp(RunSteps(w, steps, cfg))
      ensures CanCatchUp(w, cfg)
    {
      if p :| WindowStart(w, cfg) <= p < |w.history| && !Storable(w.history[p], cfg) {
        StuckForEver(w, steps, p, cfg);
      }
      if WouldBail(w, cfg) && !WindowMoves(w, cfg) {
        StalledForEver(w, steps, cfg);
      }
    }
  }

  // ----- a live session

  predicate OnlyNotifies(steps: seq<Step>) {
    forall i :: 0 <= i < |steps| ==> steps[i].Notify?
  }

  /** Every transaction that a live session has yet to be notified of can be stored. */
  ghost predicate RestNotifiable(w: World, cfg: Config)
    requires w.session.Live?
  {
    forall i :: w.session.next <= i < |w.history| ==> Notifiable(w.history[i], cfg)
  }

  lemma {:induction false} NotifiesToEnd(w: World, cfg: Config) returns (steps: seq<Step>)
    requires w.session.Live? && w.session.next <= |w.history| && RestNotifiable(w, cfg)
    ensures OnlyNotifies(steps) && CaughtUp(RunSteps(w, steps, cfg))
    decreases |w.history| - w.session.next
  {
    hide NotifyTx, Notifiable;
    steps := [];
    if w.session.next < |w.history| {
      NotifySucceedsExactly(w.db, w.history[w.session.next], cfg, 0, 0);
      var rest := NotifiesToEnd(Next(w, Notify(0, 0), cfg), cfg);
      steps := [Notify(0, 0)] + rest;
      RunConcat(w, [Notify(0, 0)], rest, cfg);
      RunOne(w, Notify(0, 0), cfg);
    }
  }

  /** A session that is still live after some notifications could store all of them. */
  lemma {:induction false} NotifiedSoFar(w: World, steps: seq<Step>, cfg: Config)
    requires w.session.Live? && w.session.next <= |w.history| && OnlyNotifies(steps)
    ensures var w' := RunSteps(w, steps, cfg);
            && w'.history == w.history
            && (w'.session.Idle? || w'.session.Live?)
            && (w'.session.Live? ==>
                && w.session.next <= w'.session.next <= |w.history|
                && forall i :: w.session.next <= i < w'.session.next ==> Notifiable(w.history[i], cfg))
  {
    hide NotifyTx, Notifiable;
    if steps != [] {
      var before, step := RunSteps(w, steps[..|steps| - 1], cfg), steps[|steps| - 1];
      NotifiedSoFar(w, steps[..|steps| - 1], cfg);
      if before.session.Live? && before.session.next < |w.history| {
        NotifySucceedsExactly(before.db, w.history[before.session.next], cfg, step.observedAt, step.at);
      }
    }
  }

  /** A live session gets through its notifications to the end of the history if and only if each of
      the transactions has a slot and, when it landed, amounts that fit BIGINT. */
  lemma LiveProgressExactly(w: World, cfg: Config)
    requires w.session.Live? && w.session.next <= |w.history|
    ensures (exists steps :: OnlyNotifies(steps) && CaughtUp(RunSteps(w, steps, cfg))) <==> RestNotifiable(w, cfg)
  {
    hide RunSteps, Notifiable;
    if RestNotifiable(w, cfg) {
      var steps := NotifiesToEnd(w, cfg);
    }
    forall steps | OnlyNotifies(steps) && CaughtUp(RunSteps(w, steps, cfg))
      ensures RestNotifiable(w, cfg)
    {
      NotifiedSoFar(w, steps, cfg);
    }
  }
}
