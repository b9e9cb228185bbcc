/** Which transactions the catch-up and the live path can store, and where they leave the cursor:
    decided by the transaction and the cursor alone, before anything is stored. */
module Replay {
  import opened Rust
  import opened LogExtraction
  import opened Crawl
  import opened Projection
  import opened Storage
  import opened Ingestion
  import opened IngestionRuns

  // ----- which transactions can be replayed

  ghost predicate AllFit(os: seq<Observation>) {
    forall o :: o in os ==> AmountsFit(o.event).Ok?
  }

  /** A replay skips failed transactions and those without metadata; the slot of any other must fit
      BIGINT, and so must the amounts of its events when it is of the current version. */
  ghost predicate Storable(tx: Tx, cfg: Config) {
    tx.failed || !tx.hasMeta || (tx.slot <= I64_MAX && (Landed(tx, cfg) ==> AllFit(EventsOf(tx, cfg))))
  }

  lemma {:induction false} StoreAllExactly(db: Db, os: seq<Observation>, at: nat)
    ensures StoreAll(db, os, at).Ok? <==> AllFit(os)
  {
    hide AmountsFit, Deliver, InsertIfAbsent, IsLiquidity, IsFee, KindOf;
    if os != [] {
      var last := |os| - 1;
      StoreAllExactly(db, os[..last], at);
      assert os == os[..last] + [os[last]];
    }
  }

  lemma SameEventsFit(os: seq<Observation>, es: seq<Observation>)
    requires SameEvents(os, es)
    ensures AllFit(os) <==> AllFit(es)
  {
    hide AmountsFit;
    forall i | 0 <= i < |os|
      ensures os[i].event == es[i].event && os[i] in os && es[i] in es
    {
      assert os[i].(blockTime := None).event == es[i].(blockTime := None).event;
    }
  }

  /** A replay succeeds for exactly these transactions, whatever the database holds. */
  lemma ReplaySucceedsExactly(db: Db, tx: Tx, cfg: Config, at: nat)
    ensures ReplayTx(db, tx, cfg, at).Ok? <==> Storable(tx, cfg)
  {
    hide Scan, StoreAll, AmountsFit;
    if tx.slot <= I64_MAX {
      var payloads := Scan(tx.logs, cfg.target, [], 0).0;
      var os := Observe(tx.signature, tx.slot, tx.blockTime, payloads, cfg.decode);
      ObserveTimes(tx.signature, tx.slot, tx.blockTime, None, payloads, cfg.decode);
      SameEventsFit(os, EventsOf(tx, cfg));
      StoreAllExactly(db, os, at);
      assert forall i :: 0 <= i < |os| ==> os[i] in os;
    }
  }

  /** Replaying the transaction reaches the cursor statement. */
  predicate MovesCursor(tx: Tx, cursor: Option<Cursor>) {
    !tx.failed && tx.hasMeta && (cursor.Some? ==> tx.slot >= cursor.value.slot)
  }

  /** A live notification reaches it for failed transactions too. */
  predicate NotifyMovesCursor(tx: Tx, cursor: Option<Cursor>) {
    cursor.Some? ==> tx.slot >= cursor.value.slot
  }

  lemma ReplayCursor(db: Db, tx: Tx, cfg: Config, at: nat)
    requires ReplayTx(db, tx, cfg, at).Ok?
    ensures ReplayTx(db, tx, cfg, at).value.cursor
         == if MovesCursor(tx, db.cursor) then Some(Cursor(tx.signature, tx.slot)) else db.cursor
  {
    hide Scan, StoreAll, AmountsFit;
    if !tx.failed && tx.hasMeta && tx.slot <= I64_MAX {
      var payloads := Scan(tx.logs, cfg.target, [], 0).0;
      var os := Observe(tx.signature, tx.slot, tx.blockTime, payloads, cfg.decode);
      ObserveTimes(tx.signature, tx.slot, tx.blockTime, None, payloads, cfg.decode);
      if os != [] && StoreBatch(db, os, at).Ok? {
        assert os[0] in os;
        BatchStores(db, os, at);
      }
    }
  }

  /** What a live session can store: it needs no metadata, but the slot of a failed transaction must
      fit BIGINT as well. */
  ghost predicate Notifiable(tx: Tx, cfg: Config) {
    tx.slot <= I64_MAX && (Landed(tx, cfg) ==> AllFit(EventsOf(tx, cfg)))
  }

  /** A notification is stored for exactly these transactions, whatever the database holds. */
  lemma NotifySucceedsExactly(db: Db, tx: Tx, cfg: Config, observedAt: i64, at: nat)
    ensures NotifyTx(db, tx, cfg, observedAt, at).Ok? <==> Notifiable(tx, cfg)
  {
    hide Scan, StoreAll, AmountsFit;
    if tx.slot <= I64_MAX {
      var payloads := Scan(tx.logs, cfg.target, [], 0).0;
      var os := Observe(tx.signature, tx.slot, Some(observedAt), payloads, cfg.decode);
      ObserveTimes(tx.signature, tx.slot, Some(observedAt), None, payloads, cfg.decode);
      SameEventsFit(os, EventsOf(tx, cfg));
      StoreAllExactly(db, os, at);
      assert forall i :: 0 <= i < |os| ==> os[i] in os;
    }
  }

  lemma NotifyCursor(db: Db, tx: Tx, cfg: Config, observedAt: i64, at: nat)
    requires NotifyTx(db, tx, cfg, observedAt, at).Ok?
    ensures tx.slot <= I64_MAX
    ensures NotifyTx(db, tx, cfg, observedAt, at).value.cursor
         == if NotifyMovesCursor(tx, db.cursor) then Some(Cursor(tx.signature, tx.slot)) else db.cursor
  {
    hide Scan, StoreAll, AmountsFit;
    var payloads := Scan(tx.logs, cfg.target, [], 0).0;
    var os := Observe(tx.signature, tx.slot, Some(observedAt), payloads, cfg.decode);
    ObserveTimes(tx.signature, tx.slot, Some(observedAt), None, payloads, cfg.decode);
    if os != [] && StoreBatch(db, os, at).Ok? {
      assert os[0] in os;
      BatchStores(db, os, at);
    }
  }

  /** A transaction of the stretch moves the cursor as it stands before the replay. */
  predicate AnyMoves(w: World, first: nat, end: nat)
    requires end <= |w.history|
  {
    exists i :: first <= i < end && MovesCursor(w.history[i], w.db.cursor)
  }

  // ----- batches and times

  /** A batch is stored exactly when it belongs to one transaction and each of its amounts fits; a mixed
      one is refused whatever it holds. */
  lemma BatchSucceedsExactly(db: Db, os: seq<Observation>, at: nat)
    ensures StoreBatch(db, os, at).Ok? <==>
              && (forall i, j :: 0 <= i < |os| && 0 <= j < |os| ==>
                  os[i].signature == os[j].signature && os[i].slot == os[j].slot)
              && AllFit(os)
    ensures !OneTransaction(os) ==> StoreBatch(db, os, at) == Err(MixedBatch)
  {
    hide StoreAll, AmountsFit;
    StoreAllExactly(db, os, at);
    if OneTransaction(os) {
      forall i, j | 0 <= i < |os| && 0 <= j < |os|
        ensures os[i].signature == os[j].signature && os[i].slot == os[j].slot
      {
        assert os[i].signature == os[0].signature && os[j].signature == os[0].signature;
      }
    }
  }

  lemma {:induction false} ObservedAt(
    signature: Signature, slot: i64, t: Option<i64>, payloads: seq<(nat, string)>, decode: string -> Decoded)
    ensures forall o :: o in Observe(signature, slot, t, payloads, decode) ==> o.blockTime == t
  {
    if payloads != [] {
      ObservedAt(signature, slot, t, payloads[..|payloads| - 1], decode);
    }
  }

  lemma LogTimes(db: Db, tx: Tx, blockTime: Option<i64>, cfg: Config, at: nat)
    requires tx.slot <= I64_MAX && IngestLogs(db, tx.signature, tx.slot, blockTime, tx.logs, cfg, at).Ok?
    ensures var after := IngestLogs(db, tx.signature, tx.slot, blockTime, tx.logs, cfg, at).value;
            forall d :: d in after.delivered ==> d in db.delivered || (d.o.blockTime == blockTime && d.at == at)
  {
    hide Scan, StoreBatch;
    var os := Observe(tx.signature, tx.slot, blockTime, Scan(tx.logs, cfg.target, [], 0).0, cfg.decode);
    ObservedAt(tx.signature, tx.slot, blockTime, Scan(tx.logs, cfg.target, [], 0).0, cfg.decode);
    if os != [] {
      BatchStores(db, os, at);
      var after := StoreBatch(db, os, at).value;
      forall d | d in after.delivered
        ensures d in db.delivered || (d.o.blockTime == blockTime && d.at == at)
      {
        var k :| 0 <= k < |after.delivered| && after.delivered[k] == d;
        if k < |db.delivered| {
          assert after.delivered[..|db.delivered|][k] == d;
        } else {
          var i := k - |db.delivered|;
          assert after.delivered[|db.delivered| + i] == Delivery(os[i], at) && os[i] in os;
        }
      }
    }
  }

  /** What a catch-up stores carries the block time of its transaction; what a live session stores, the
      time at which the notification was observed. */
  lemma StoredTimes(db: Db, tx: Tx, cfg: Config, observedAt: i64, at: nat)
    ensures ReplayTx(db, tx, cfg, at).Ok? ==>
              forall d :: d in ReplayTx(db, tx, cfg, at).value.delivered ==>
                d in db.delivered || (d.o.blockTime == tx.blockTime && d.at == at)
    ensures NotifyTx(db, tx, cfg, observedAt, at).Ok? ==>
              forall d :: d in NotifyTx(db, tx, cfg, observedAt, at).value.delivered ==>
                d in db.delivered || (d.o.blockTime == Some(observedAt) && d.at == at)
  {
    hide IngestLogs, Advance;
    if tx.slot <= I64_MAX {
      if IngestLogs(db, tx.signature, tx.slot, tx.blockTime, tx.logs, cfg, at).Ok? {
        LogTimes(db, tx, tx.blockTime, cfg, at);
      }
      if IngestLogs(db, tx.signature, tx.slot, Some(observedAt), tx.logs, cfg, at).Ok? {
        LogTimes(db, tx, Some(observedAt), cfg, at);
      }
    }
  }
}
