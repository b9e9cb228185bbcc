/** Crash-safe ingestion: catch-up crawls and live notifications, each transaction of the history
    stored in one database transaction, with a crash possible between any two of them. */
module Ingestion {
  import opened Rust
  import opened Protocol
  import opened LogExtraction
  import opened Crawl
  import opened Projection
  import opened Storage

  datatype Decoded = Decoded(event: Event) | NoEvent | DeadLetter

  /** The program whose logs are read, the event decoder, the first slot of the v2 events and the
      crawl limit. */
  datatype Config = Config(target: string, decode: string -> Decoded, v2MinSlot: u64, limit: nat)

  // ----- one transaction

  function Observe(
    signature: Signature, slot: i64, blockTime: Option<i64>, payloads: seq<(nat, string)>, decode: string -> Decoded)
    : seq<Observation>
  {
    if payloads == [] then []
    else
      var rest := Observe(signature, slot, blockTime, payloads[..|payloads| - 1], decode);
      var last := payloads[|payloads| - 1];
      match decode(last.1)
      case Decoded(event) => rest + [Observation(signature, slot, blockTime, last.0, event)]
      case _ => rest
  }

  /** Storing the decoded events of one log, or only moving the cursor when there is none. */
  function IngestLogs(
    db: Db, signature: Signature, slot: i64, blockTime: Option<i64>, logs: seq<string>, cfg: Config, at: nat)
    : Result<Db>
  {
    var os := Observe(signature, slot, blockTime, Scan(logs, cfg.target, [], 0).0, cfg.decode);
    if os == [] then Ok(db.(cursor := Advance(db.cursor, signature, slot)))
    else StoreBatch(db, os, at)
  }

  function ReplayTx(db: Db, tx: Tx, cfg: Config, at: nat): Result<Db> {
    if tx.failed || !tx.hasMeta then Ok(db)
    else
      var _ :- Require(tx.slot <= I64_MAX, ValueOutOfRange);
      if tx.slot < cfg.v2MinSlot then Ok(db.(cursor := Advance(db.cursor, tx.signature, tx.slot)))
      else IngestLogs(db, tx.signature, tx.slot, tx.blockTime, tx.logs, cfg, at)
  }

  /** A live notification carries the logs and the time it was observed at. */
  function NotifyTx(db: Db, tx: Tx, cfg: Config, observedAt: i64, at: nat): Result<Db> {
    var _ :- Require(tx.slot <= I64_MAX, ValueOutOfRange);
    if tx.failed || tx.slot < cfg.v2MinSlot then Ok(db.(cursor := Advance(db.cursor, tx.signature, tx.slot)))
    else IngestLogs(db, tx.signature, tx.slot, Some(observedAt), tx.logs, cfg, at)
  }

  function ReplayAll(db: Db, txs: seq<Tx>, cfg: Config, at: nat): Result<Db> {
    if txs == [] then Ok(db)
    else
      var before :- ReplayAll(db, txs[..|txs| - 1], cfg, at);
      ReplayTx(before, txs[|txs| - 1], cfg, at)
  }

  function Newest(h: seq<Tx>): seq<Tx> {
    seq(|h|, i requires 0 <= i < |h| => h[|h| - 1 - i])
  }

  function CursorSignature(db: Db): Option<Signature> {
    match db.cursor
    case None => None
    case Some(c) => Some(c.signature)
  }

  // ----- the program

  method ApplyProgramLogs(
    storage: Database, signature: Signature, slot: i64, blockTime: Option<i64>, logs: seq<string>, cfg: Config, at: nat)
    returns (r: Result<nat>)
    modifies storage
    ensures match IngestLogs(old(storage.db), signature, slot, blockTime, logs, cfg, at)
            case Ok(after) =>
              r == Ok(|Observe(signature, slot, blockTime, Scan(logs, cfg.target, [], 0).0, cfg.decode)|)
                  && storage.db == after
            case Err(e) => r == Err(e) && storage.db == old(storage.db)
  {
    hide Scan, StoreBatch;
    var payloads := ProgramDataLogs(logs, cfg.target);
    var os: seq<Observation> := [];
    for i := 0 to |payloads|
      invariant os == Observe(signature, slot, blockTime, payloads[..i], cfg.decode)
    {
      assert payloads[..i + 1][..i] == payloads[..i];
      match cfg.decode(payloads[i].1) {
        case Decoded(event) =>
          os := os + [Observation(signature, slot, blockTime, payloads[i].0, event)];
        case NoEvent =>
        case DeadLetter =>
      }
    }
    assert payloads[..|payloads|] == payloads;
    if |os| == 0 {
      storage.AdvanceCursor(signature, slot);
    } else {
      var _ :- storage.ApplyBatch(os, at);
    }
    return Ok(|os|);
  }

  method LogsWithStorage(storage: Database, tx: Tx, cfg: Config, observedAt: i64, at: nat) returns (r: Result<()>)
    modifies storage
    ensures match NotifyTx(old(storage.db), tx, cfg, observedAt, at)
            case Ok(after) => r == Ok(()) && storage.db == after
            case Err(e) => r == Err(e) && storage.db == old(storage.db)
  {
    hide IngestLogs;
    var preV2 := tx.slot < cfg.v2MinSlot;
    var _ :- Require(tx.slot <= I64_MAX, ValueOutOfRange);
    if tx.failed || preV2 {
      storage.AdvanceCursor(tx.signature, tx.slot);
      return Ok(());
    }
    var _ :- ApplyProgramLogs(storage, tx.signature, tx.slot, Some(observedAt), tx.logs, cfg, at);
    return Ok(());
  }

  /** The catch-up: crawl newest first, then replay oldest first, one transaction at a time. When a
      replay fails, what came before it stays stored. */
  method RecentWithStorage(storage: Database, newest: seq<Tx>, cfg: Config, at: nat) returns (r: Result<Report>)
    requires DistinctSignatures(newest)
    modifies storage
    ensures r.Ok? ==>
              var signatures := newest[..Reach(newest, cfg.limit, CursorSignature(old(storage.db)))];
              && r.value == Report(signatures, Reaches(newest, cfg.limit, CursorSignature(old(storage.db))))
              && ReplayAll(old(storage.db), Newest(signatures), cfg, at) == Ok(storage.db)
    ensures r.Err? ==>
              var signatures := newest[..Reach(newest, cfg.limit, CursorSignature(old(storage.db)))];
              exists n :: 0 <= n <= |signatures|
                  && ReplayAll(old(storage.db), Newest(signatures)[..n], cfg, at) == Ok(storage.db)
  {
    hide ReplayTx, IngestLogs, Reach, Reaches, DistinctSignatures;
    var report := CollectSignatures(newest, cfg.limit, CursorSignature(storage.db));
    var oldestFirst := Newest(report.signatures);
    for i := 0 to |oldestFirst|
      invariant ReplayAll(old(storage.db), oldestFirst[..i], cfg, at) == Ok(storage.db)
    {
      assert oldestFirst[..i + 1][..i] == oldestFirst[..i];
      var stored := ReplayOne(storage, oldestFirst[i], cfg, at);
      if stored.Err? {
        return Err(stored.error);
      }
    }
    assert oldestFirst[..|oldestFirst|] == oldestFirst;
    return Ok(report);
  }

  method ReplayOne(storage: Database, tx: Tx, cfg: Config, at: nat) returns (r: Result<()>)
    modifies storage
    ensures match ReplayTx(old(storage.db), tx, cfg, at)
            case Ok(after) => r == Ok(()) && storage.db == after
            case Err(e) => r == Err(e) && storage.db == old(storage.db)
  {
    hide IngestLogs;
    if tx.failed || !tx.hasMeta {
      return Ok(());
    }
    var _ :- Require(tx.slot <= I64_MAX, ValueOutOfRange);
    if tx.slot < cfg.v2MinSlot {
      storage.AdvanceCursor(tx.signature, tx.slot);
      return Ok(());
    }
    var _ :- ApplyProgramLogs(storage, tx.signature, tx.slot, tx.blockTime, tx.logs, cfg, at);
    return Ok(());
  }

  /** The session's gap check after a catch-up. */
  predicate Bails(cursorBefore: Option<Signature>, cursorFound: bool, scanned: nat, limit: nat) {
    cursorBefore.Some? && !cursorFound && scanned >= limit
  }

  /** For a stored cursor that is in the history and a limit within the clamp, the check fires
      exactly when the crawl did not get back to the cursor. */
  lemma BailsExactlyWhenOutrun(h: seq<Tx>, limit: nat, cursor: Option<Signature>)
    requires 1 <= limit <= MAX_LIMIT && DistinctSignatures(h) && (cursor.Some? ==> CursorAt(h, cursor).Some?)
    ensures Bails(cursor, Reaches(h, limit, cursor), Reach(h, limit, cursor), limit)
        <==> cursor.Some? && !Reaches(h, limit, cursor)
  {
    hide IndexOf, DistinctSignatures;
  }

  /** Above the clamp the check never fires, although the crawl may have been outrun. */
  lemma NeverBailsAboveClamp(h: seq<Tx>, limit: nat, cursor: Option<Signature>)
    requires limit > MAX_LIMIT
    ensures !Bails(cursor, Reaches(h, limit, cursor), Reach(h, limit, cursor), limit)
  {
    hide IndexOf;
  }
}
