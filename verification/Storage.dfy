/** The indexer's tables for one source, and the transactions that write them. */
module Storage {
  import opened Rust
  import opened Protocol
  import opened Crawl
  import opened Projection

  const I64_MAX: int := 0x7FFF_FFFF_FFFF_FFFF

  datatype Kind =
    | Created | Closed | Deposited | Requested | Cancelled | Executed | FeesWithdrawn | FallbackClaimed | Unstored

  function KindOf(e: Event): Kind {
    match e
    case PositionCreated(_, _, _, _, _, _) => Created
    case PositionClosed(_, _, _, _, _) => Closed
    case LiquidityDeposited(_, _, _, _) => Deposited
    case WithdrawalRequested(_, _, _, _) => Requested
    case WithdrawalCancelled(_, _, _) => Cancelled
    case WithdrawalExecuted(_, _, _, _) => Executed
    case ProtocolFeesWithdrawn(_, _) => FeesWithdrawn
    case FallbackPayoutClaimed(_, _) => FallbackClaimed
    case MarketModeChanged(_, _) => Unstored
  }

  predicate IsAny(kind: Kind) {
    true
  }

  predicate IsLiquidity(kind: Kind) {
    kind in {Deposited, Requested, Cancelled, Executed}
  }

  predicate IsFee(kind: Kind) {
    kind in {FeesWithdrawn, FallbackClaimed}
  }

  /** The key of the event tables: the transaction, the log line and the kind. */
  datatype EventKey = EventKey(signature: Signature, path: nat, kind: Kind)

  function KeyOf(o: Observation): EventKey {
    EventKey(o.signature, o.path, KindOf(o.event))
  }

  /** A row of the liquidity or fee table: the event and the time bound with its first delivery. */
  datatype EventRow = EventRow(event: Event, occurredAt: Option<i64>)

  function EventOf(o: Observation): Event {
    o.event
  }

  function RowOf(o: Observation): EventRow {
    EventRow(o.event, o.blockTime)
  }

  datatype Cursor = Cursor(signature: Signature, slot: i64)

  /** The tables, and as history the observations that committed transactions have stored. */
  datatype Db = Db(
    transactions: map<Signature, i64>,
    instructions: map<EventKey, Event>,
    positions: map<PosId, Row>,
    liquidity: map<EventKey, EventRow>,
    fees: map<EventKey, EventRow>,
    cursor: Option<Cursor>,
    delivered: seq<Delivery>)

  const EMPTY_DB := Db(map[], map[], map[], map[], map[], None, [])

  /** `INSERT ... ON CONFLICT DO NOTHING`. */
  function InsertIfAbsent<K, V>(rows: map<K, V>, k: K, v: V): map<K, V> {
    if k in rows then rows else rows[k := v]
  }

  /** Amounts are bound as Postgres BIGINT. */
  function AmountsFit(e: Event): Result<()> {
    match e
    case PositionClosed(_, _, payout, lpFee, platformFee) =>
      Require(payout <= I64_MAX && lpFee <= I64_MAX && platformFee <= I64_MAX, ValueOutOfRange)
    case LiquidityDeposited(_, _, assets, _) => Require(assets <= I64_MAX, ValueOutOfRange)
    case WithdrawalRequested(_, _, _, minAssetsOut) => Require(minAssetsOut <= I64_MAX, ValueOutOfRange)
    case WithdrawalExecuted(_, _, _, assets) => Require(assets <= I64_MAX, ValueOutOfRange)
    case ProtocolFeesWithdrawn(_, assets) => Require(assets <= I64_MAX, ValueOutOfRange)
    case FallbackPayoutClaimed(_, assets) => Require(assets <= I64_MAX, ValueOutOfRange)
    case _ => Ok(())
  }

  function StoreObservation(db: Db, o: Observation, at: nat): Result<Db> {
    var _ :- AmountsFit(o.event);
    var kind := KindOf(o.event);
    Ok(Db(
      InsertIfAbsent(db.transactions, o.signature, o.slot),
      InsertIfAbsent(db.instructions, KeyOf(o), o.event),
      Deliver(db.positions, Delivery(o, at)),
      if IsLiquidity(kind) then InsertIfAbsent(db.liquidity, KeyOf(o), RowOf(o)) else db.liquidity,
      if IsFee(kind) then InsertIfAbsent(db.fees, KeyOf(o), RowOf(o)) else db.fees,
      db.cursor,
      db.delivered + [Delivery(o, at)]))
  }

  function StoreAll(db: Db, os: seq<Observation>, at: nat): Result<Db> {
    if os == [] then Ok(db)
    else
      var before :- StoreAll(db, os[..|os| - 1], at);
      StoreObservation(before, os[|os| - 1], at)
  }

  /** The cursor moves unless it already stands at a later slot. */
  function Advance(cursor: Option<Cursor>, signature: Signature, slot: i64): Option<Cursor> {
    if cursor.None? || slot >= cursor.value.slot then Some(Cursor(signature, slot)) else cursor
  }

  predicate OneTransaction(os: seq<Observation>) {
    forall i :: 0 <= i < |os| ==> os[i].signature == os[0].signature && os[i].slot == os[0].slot
  }

  function StoreBatch(db: Db, os: seq<Observation>, at: nat): Result<Db> {
    if os == [] then Ok(db)
    else
      var _ :- Require(OneTransaction(os), MixedBatch);
      var stored :- StoreAll(db, os, at);
      Ok(stored.(cursor := Advance(stored.cursor, os[0].signature, os[0].slot)))
  }

  // ----- what the tables distinguish

  /** Each kind of event has its own label, and the label alone says which table it goes to. */
  lemma KindsTellEvents(e: Event, e': Event)
    ensures KindOf(e) == KindOf(e') <==>
              || (e.PositionCreated? && e'.PositionCreated?) || (e.PositionClosed? && e'.PositionClosed?)
              || (e.LiquidityDeposited? && e'.LiquidityDeposited?)
              || (e.WithdrawalRequested? && e'.WithdrawalRequested?)
              || (e.WithdrawalCancelled? && e'.WithdrawalCancelled?)
              || (e.WithdrawalExecuted? && e'.WithdrawalExecuted?)
              || (e.ProtocolFeesWithdrawn? && e'.ProtocolFeesWithdrawn?)
              || (e.FallbackPayoutClaimed? && e'.FallbackPayoutClaimed?)
              || (e.MarketModeChanged? && e'.MarketModeChanged?)
    ensures IsLiquidity(KindOf(e)) <==>
              e.LiquidityDeposited? || e.WithdrawalRequested? || e.WithdrawalCancelled? || e.WithdrawalExecuted?
    ensures IsFee(KindOf(e)) <==> e.ProtocolFeesWithdrawn? || e.FallbackPayoutClaimed?
    ensures KindOf(e) == Deposited <==> e.LiquidityDeposited?
    ensures KindOf(e) == Requested <==> e.WithdrawalRequested?
    ensures KindOf(e) == Cancelled <==> e.WithdrawalCancelled?
    ensures KindOf(e) == Executed <==> e.WithdrawalExecuted?
    ensures KindOf(e) == FeesWithdrawn <==> e.ProtocolFeesWithdrawn?
    ensures KindOf(e) == FallbackClaimed <==> e.FallbackPayoutClaimed?
  {
  }

  /** The token amounts of an event that the database binds as BIGINT. */
  function TokenAmounts(e: Event): set<int> {
    match e
    case PositionClosed(_, _, payout, lpFee, platformFee) => {payout, lpFee, platformFee}
    case LiquidityDeposited(_, _, assets, _) => {assets}
    case WithdrawalRequested(_, _, _, minAssetsOut) => {minAssetsOut}
    case WithdrawalExecuted(_, _, _, assets) => {assets}
    case ProtocolFeesWithdrawn(_, assets) => {assets}
    case FallbackPayoutClaimed(_, assets) => {assets}
    case _ => {}
  }

  /** An event fits when each of its token amounts is below 2^63; share counts are numeric and any u128
      fits. */
  lemma FitsExactly(e: Event)
    ensures AmountsFit(e) == if forall n :: n in TokenAmounts(e) ==> n < 0x8000_0000_0000_0000 then Ok(())
                             else Err(ValueOutOfRange)
  {
    match e
    case PositionClosed(_, _, payout, lpFee, platformFee) =>
      assert payout in TokenAmounts(e) && lpFee in TokenAmounts(e) && platformFee in TokenAmounts(e);
    case LiquidityDeposited(_, _, assets, _) => assert assets in TokenAmounts(e);
    case WithdrawalRequested(_, _, _, minAssetsOut) => assert minAssetsOut in TokenAmounts(e);
    case WithdrawalExecuted(_, _, _, assets) => assert assets in TokenAmounts(e);
    case ProtocolFeesWithdrawn(_, assets) => assert assets in TokenAmounts(e);
    case FallbackPayoutClaimed(_, assets) => assert assets in TokenAmounts(e);
    case _ =>
  }

  // ----- the statements, on tables updated in place

  class Tables {
    var transactions: map<Signature, i64>
    var instructions: map<EventKey, Event>
    var positions: map<PosId, Row>
    var liquidity: map<EventKey, EventRow>
    var fees: map<EventKey, EventRow>
    var cursor: Option<Cursor>
    var delivered: seq<Delivery>

    function View(): Db
      reads this
    {
      Db(transactions, instructions, positions, liquidity, fees, cursor, delivered)
    }

    constructor (db: Db)
      ensures View() == db
    {
      transactions, instructions, positions := db.transactions, db.instructions, db.positions;
      liquidity, fees, cursor, delivered := db.liquidity, db.fees, db.cursor, db.delivered;
    }

    method InsertRawObservation(o: Observation)
      modifies this`transactions, this`instructions
      ensures transactions == InsertIfAbsent(old(transactions), o.signature, o.slot)
      ensures instructions == InsertIfAbsent(old(instructions), KeyOf(o), o.event)
    {
      if o.signature !in transactions {
        transactions := transactions[o.signature := o.slot];
      }
      if KeyOf(o) !in instructions {
        instructions := instructions[KeyOf(o) := o.event];
      }
    }

    method UpsertPositionCreated(o: Observation, at: nat)
      requires o.event.PositionCreated?
      modifies this`positions
      ensures positions == Deliver(old(positions), Delivery(o, at))
    {
      var id := o.event.id;
      if id !in positions {
        positions := positions[id := UpsertCreated(None, o, at)];
      } else if CreatedDiffers(positions[id], o) {
        positions := positions[id := WriteCreated(positions[id], o).(updatedAt := at)];
      }
    }

    method UpsertPositionClosed(o: Observation, at: nat) returns (r: Result<()>)
      requires o.event.PositionClosed?
      modifies this`positions
      ensures r == AmountsFit(o.event)
      ensures positions == if r.Ok? then Deliver(old(positions), Delivery(o, at)) else old(positions)
    {
      var _ :- AmountsFit(o.event);
      var id := o.event.id;
      if id !in positions {
        positions := positions[id := UpsertClosed(None, o, at)];
      } else if ClosedDiffers(positions[id], o) {
        positions := positions[id := WriteClosed(positions[id], o).(updatedAt := at)];
      }
      return Ok(());
    }

    method InsertLiquidityEvent(o: Observation) returns (r: Result<()>)
      modifies this`liquidity
      ensures r == AmountsFit(o.event)
      ensures liquidity == if r.Ok? then InsertIfAbsent(old(liquidity), KeyOf(o), RowOf(o)) else old(liquidity)
    {
      var _ :- AmountsFit(o.event);
      if KeyOf(o) !in liquidity {
        liquidity := liquidity[KeyOf(o) := RowOf(o)];
      }
      return Ok(());
    }

    method InsertFeeEvent(o: Observation) returns (r: Result<()>)
      modifies this`fees
      ensures r == AmountsFit(o.event)
      ensures fees == if r.Ok? then InsertIfAbsent(old(fees), KeyOf(o), RowOf(o)) else old(fees)
    {
      var _ :- AmountsFit(o.event);
      if KeyOf(o) !in fees {
        fees := fees[KeyOf(o) := RowOf(o)];
      }
      return Ok(());
    }

    method ApplyProjection(o: Observation, at: nat) returns (r: Result<()>)
      modifies this`positions, this`liquidity, this`fees
      ensures r == AmountsFit(o.event)
      ensures r.Ok? ==>
                && positions == Deliver(old(positions), Delivery(o, at))
                && liquidity == (if IsLiquidity(KindOf(o.event))
                                 then InsertIfAbsent(old(liquidity), KeyOf(o), RowOf(o)) else old(liquidity))
                && fees == (if IsFee(KindOf(o.event))
                            then InsertIfAbsent(old(fees), KeyOf(o), RowOf(o)) else old(fees))
    {
      hide UpsertCreated, UpsertClosed;
      match KindOf(o.event) {
        case Created =>
          UpsertPositionCreated(o, at);
          return Ok(());
        case Closed =>
          r := UpsertPositionClosed(o, at);
        case Unstored =>
          return Ok(());
        case FeesWithdrawn =>
          r := InsertFeeEvent(o);
        case FallbackClaimed =>
          r := InsertFeeEvent(o);
        case _ =>
          r := InsertLiquidityEvent(o);
      }
    }

    method Move(signature: Signature, slot: i64)
      modifies this`cursor
      ensures cursor == Advance(old(cursor), signature, slot)
    {
      if cursor.None? || slot >= cursor.value.slot {
        cursor := Some(Cursor(signature, slot));
      }
    }
  }

  /** The database: what committed transactions have written. */
  class Database {
    var db: Db

    constructor ()
      ensures db == EMPTY_DB
    {
      db := EMPTY_DB;
    }

    /** One transaction for a whole batch: it commits everything or nothing. */
    method ApplyBatch(os: seq<Observation>, at: nat) returns (r: Result<()>)
      modifies this
      ensures match StoreBatch(old(db), os, at)
              case Ok(after) => r == Ok(()) && db == after
              case Err(e) => r == Err(e) && db == old(db)
    {
      hide StoreObservation, Deliver, KindOf, AmountsFit;
      if |os| == 0 {
        return Ok(());
      }
      var _ :- Require(OneTransaction(os), MixedBatch);
      var tx := new Tables(db);
      for i := 0 to |os|
        invariant StoreAll(old(db), os[..i], at) == Ok(tx.View())
        invariant db == old(db)
      {
        assert os[..i + 1][..i] == os[..i];
        var stored := StoreOne(tx, os[i], at);
        if stored.Err? {
          StoreAllFails(old(db), os, i + 1, at);
          return stored;
        }
      }
      assert os[..|os|] == os;
      tx.Move(os[0].signature, os[0].slot);
      db := tx.View();
      return Ok(());
    }

    method AdvanceCursor(signature: Signature, slot: i64)
      modifies this
      ensures db == old(db).(cursor := Advance(old(db).cursor, signature, slot))
    {
      var tx := new Tables(db);
      tx.Move(signature, slot);
      db := tx.View();
    }
  }

  method StoreOne(tx: Tables, o: Observation, at: nat) returns (r: Result<()>)
    modifies tx
    ensures match StoreObservation(old(tx.View()), o, at)
            case Ok(after) => r == Ok(()) && tx.View() == after
            case Err(e) => r == Err(e)
  {
    hide Deliver, AmountsFit, InsertIfAbsent;
    tx.InsertRawObservation(o);
    var _ :- tx.ApplyProjection(o, at);
    tx.delivered := tx.delivered + [Delivery(o, at)];
    return Ok(());
  }

  lemma {:induction false} StoreAllFails(db: Db, os: seq<Observation>, n: nat, at: nat)
    requires n <= |os| && StoreAll(db, os[..n], at).Err?
    ensures StoreAll(db, os, at) == StoreAll(db, os[..n], at)
  {
    hide StoreObservation;
    if n == |os| {
      assert os[..n] == os;
    } else {
      assert os[..|os| - 1][..n] == os[..n];
      StoreAllFails(db, os[..|os| - 1], n, at);
    }
  }

  // ----- what the transactions keep

  /** The positions table is the projection of the observations stored so far. */
  ghost predicate Projected(db: Db) {
    db.positions == Rows(db.delivered)
  }

  lemma {:induction false} StoreAllAppends(db: Db, os: seq<Observation>, at: nat)
    requires StoreAll(db, os, at).Ok?
    ensures var after := StoreAll(db, os, at).value;
            && after.cursor == db.cursor
            && |after.delivered| == |db.delivered| + |os|
            && after.delivered[..|db.delivered|] == db.delivered
            && (forall i :: 0 <= i < |os| ==> after.delivered[|db.delivered| + i] == Delivery(os[i], at))
            && (Projected(db) ==> Projected(after))
  {
    if os != [] {
      StoreAllAppends(db, os[..|os| - 1], at);
      var before := StoreAll(db, os[..|os| - 1], at).value;
      var d := Delivery(os[|os| - 1], at);
      assert (before.delivered + [d])[..|before.delivered|] == before.delivered;
    }
  }

  /** A batch that commits stores exactly its observations and moves the cursor to its transaction
      unless the cursor stands at a later slot; a batch that fails changes nothing. */
  lemma BatchStores(db: Db, os: seq<Observation>, at: nat)
    requires StoreBatch(db, os, at).Ok? && os != []
    ensures var after := StoreBatch(db, os, at).value;
            && after.cursor == Advance(db.cursor, os[0].signature, os[0].slot)
            && |after.delivered| == |db.delivered| + |os|
            && after.delivered[..|db.delivered|] == db.delivered
            && (forall i :: 0 <= i < |os| ==> after.delivered[|db.delivered| + i] == Delivery(os[i], at))
            && (Projected(db) ==> Projected(after))
  {
    hide StoreAll, Rows;
    StoreAllAppends(db, os, at);
  }

  /** The row was written by a delivered observation. */
  ghost predicate Written<R>(db: Db, k: EventKey, row: R, rowOf: Observation -> R) {
    exists d :: d in db.delivered && KeyOf(d.o) == k && rowOf(d.o) == row
  }

  /** A table of the wanted kinds has a row for whatever was delivered, and no other row. */
  ghost predicate Kept<R>(db: Db, table: map<EventKey, R>, wanted: Kind -> bool, rowOf: Observation -> R) {
    && (forall d :: d in db.delivered && wanted(KindOf(d.o.event)) ==> KeyOf(d.o) in table)
    && (forall k :: k in table ==> wanted(k.kind) && Written(db, k, table[k], rowOf))
  }

  /** The transactions table has the transactions of what was delivered, with their slots. */
  ghost predicate KeptTransactions(db: Db) {
    && (forall d :: d in db.delivered ==> d.o.signature in db.transactions)
    && (forall g :: g in db.transactions ==>
          exists d :: d in db.delivered && d.o.signature == g && d.o.slot == db.transactions[g])
  }

  lemma KeptTransactionsGrow(db: Db, o: Observation, at: nat)
    requires KeptTransactions(db) && StoreObservation(db, o, at).Ok?
    ensures KeptTransactions(StoreObservation(db, o, at).value)
  {
    hide AmountsFit, KindOf, Deliver, IsLiquidity, IsFee;
    var after := StoreObservation(db, o, at).value;
    assert Delivery(o, at) in after.delivered;
    assert forall d :: d in db.delivered ==> d in after.delivered;
    forall g | g in after.transactions
      ensures exists d :: d in after.delivered && d.o.signature == g && d.o.slot == after.transactions[g]
    {
      if g in db.transactions {
        var d :| d in db.delivered && d.o.signature == g && d.o.slot == db.transactions[g];
      } else {
        assert Delivery(o, at).o.signature == g && Delivery(o, at).o.slot == after.transactions[g];
      }
    }
  }

  /** Whatever was delivered has its rows, and every row was delivered. */
  ghost predicate Recorded(db: Db) {
    && (forall d :: d in db.delivered ==> AmountsFit(d.o.event).Ok?)
    && KeptTransactions(db)
    && Kept(db, db.instructions, IsAny, EventOf)
    && Kept(db, db.liquidity, IsLiquidity, RowOf) && Kept(db, db.fees, IsFee, RowOf)
  }

  lemma KeptGrows<R>(
    db: Db, after: Db, table: map<EventKey, R>, wanted: Kind -> bool, rowOf: Observation -> R, o: Observation, at: nat)
    requires Kept(db, table, wanted, rowOf) && after.delivered == db.delivered + [Delivery(o, at)]
    ensures var grown := if wanted(KindOf(o.event)) then InsertIfAbsent(table, KeyOf(o), rowOf(o)) else table;
            Kept(after, grown, wanted, rowOf)
  {
    hide KindOf;
    assert Delivery(o, at) in after.delivered;
    assert forall d :: d in db.delivered ==> d in after.delivered;
  }

  lemma StoreKeepsRecorded(db: Db, o: Observation, at: nat)
    requires Recorded(db) && StoreObservation(db, o, at).Ok?
    ensures Recorded(StoreObservation(db, o, at).value)
  {
    hide AmountsFit, KindOf, Deliver, IsLiquidity, IsFee, Kept, KeptTransactions;
    KeptTransactionsGrow(db, o, at);
    var after := StoreObservation(db, o, at).value;
    KeptGrows(db, after, db.instructions, IsAny, EventOf, o, at);
    KeptGrows(db, after, db.liquidity, IsLiquidity, RowOf, o, at);
    KeptGrows(db, after, db.fees, IsFee, RowOf, o, at);
  }

  lemma {:induction false} StoreAllKeepsRecorded(db: Db, os: seq<Observation>, at: nat)
    requires Recorded(db) && StoreAll(db, os, at).Ok?
    ensures Recorded(StoreAll(db, os, at).value)
  {
    hide Recorded, StoreObservation;
    if os != [] {
      StoreAllKeepsRecorded(db, os[..|os| - 1], at);
      StoreKeepsRecorded(StoreAll(db, os[..|os| - 1], at).value, os[|os| - 1], at);
    }
  }

  lemma CursorKeepsKept<R>(
    db: Db, cursor: Option<Cursor>, table: map<EventKey, R>, wanted: Kind -> bool, rowOf: Observation -> R)
    requires Kept(db, table, wanted, rowOf)
    ensures Kept(db.(cursor := cursor), table, wanted, rowOf)
  {
    hide KindOf;
  }

  lemma CursorKeepsRecorded(db: Db, cursor: Option<Cursor>)
    requires Recorded(db)
    ensures Recorded(db.(cursor := cursor))
  {
    hide AmountsFit, Kept;
    CursorKeepsKept(db, cursor, db.instructions, IsAny, EventOf);
    CursorKeepsKept(db, cursor, db.liquidity, IsLiquidity, RowOf);
    CursorKeepsKept(db, cursor, db.fees, IsFee, RowOf);
  }

  lemma BatchKeepsRecorded(db: Db, os: seq<Observation>, at: nat)
    requires Recorded(db) && StoreBatch(db, os, at).Ok?
    ensures Recorded(StoreBatch(db, os, at).value)
  {
    hide Recorded, StoreAll;
    if os != [] {
      StoreAllKeepsRecorded(db, os, at);
      var stored := StoreAll(db, os, at).value;
      CursorKeepsRecorded(stored, Advance(stored.cursor, os[0].signature, os[0].slot));
    }
  }

  /** Storing an event a second time, at another time or with another block time, changes none of
      the event tables, so no liquidity or fee event is ever counted twice. */
  lemma RedeliveryCountsOnce(db: Db, o: Observation, again: Observation, at: nat, at': nat)
    requires Recorded(db) && Delivery(o, at) in db.delivered && SameEvent(o, again)
    ensures StoreObservation(db, again, at').Ok?
    ensures var after := StoreObservation(db, again, at').value;
            && after.transactions == db.transactions && after.instructions == db.instructions
            && after.liquidity == db.liquidity && after.fees == db.fees
  {
    hide AmountsFit, Deliver, KindOf, IsLiquidity, IsFee, Written;
    SameEventSameKey(o, again);
    assert IsAny(KindOf(o.event));
  }

  lemma SameEventSameKey(a: Observation, b: Observation)
    requires SameEvent(a, b)
    ensures KeyOf(a) == KeyOf(b) && a.event == b.event && a.signature == b.signature
  {
    assert a.(blockTime := None).event == b.(blockTime := None).event;
    assert a.(blockTime := None).signature == b.(blockTime := None).signature;
    assert a.(blockTime := None).path == b.(blockTime := None).path;
  }
}
