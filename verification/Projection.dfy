/** The rows of the positions table and the two statements that write them. */
module Projection {
  import opened Rust
  import opened Protocol
  import opened Crawl

  const EVENT_CONTRACT_VERSION := 2

  /** An event as the indexer observed it in a transaction's log. */
  datatype Observation = Observation(signature: Signature, slot: i64, blockTime: Option<i64>, path: nat, event: Event)

  datatype Status = OpenRow | SettledRow | RefundedRow

  function LifecycleStatus(outcome: Outcome): Status {
    if outcome == Refunded then RefundedRow else SettledRow
  }

  datatype Row = Row(
    user: Option<Pubkey>, entryPrice: Option<i64>, collateral: Option<u32>, direction: Option<Direction>,
    expiresAt: Option<u32>, openedAt: Option<int>, createdBy: Option<Signature>,
    status: Status, outcome: Option<Outcome>, payout: Option<u64>, lpFee: Option<u64>, platformFee: Option<u64>,
    closedAt: Option<i64>, closedBy: Option<Signature>,
    version: nat, partial: bool, lastSlot: i64, updatedAt: nat)

  function Greatest(a: int, b: int): int {
    if a >= b then a else b
  }

  /** The columns a creation writes, over whatever the row held before. */
  function WriteCreated(r: Row, o: Observation): Row
    requires o.event.PositionCreated?
  {
    r.(user := Some(o.event.user), entryPrice := Some(o.event.entryPrice), collateral := Some(o.event.collateral),
       direction := Some(o.event.direction), expiresAt := Some(o.event.expiresAt),
       openedAt := Some(o.event.expiresAt - 10),
       createdBy := Some(o.signature), version := Greatest(r.version, EVENT_CONTRACT_VERSION), partial := false,
       lastSlot := Greatest(r.lastSlot, o.slot))
  }

  /** The `WHERE ... IS DISTINCT FROM` guard of the creation's update. */
  predicate CreatedDiffers(r: Row, o: Observation)
    requires o.event.PositionCreated?
  {
    || r.user != Some(o.event.user) || r.entryPrice != Some(o.event.entryPrice)
    || r.collateral != Some(o.event.collateral)
    || r.direction != Some(o.event.direction) || r.expiresAt != Some(o.event.expiresAt)
    || r.openedAt != Some(o.event.expiresAt - 10) || r.createdBy != Some(o.signature)
    || r.version != EVENT_CONTRACT_VERSION || r.partial != false || r.lastSlot != Greatest(r.lastSlot, o.slot)
  }

  /** `INSERT ... ON CONFLICT DO UPDATE ... WHERE` for a creation, at database time `at`. */
  function UpsertCreated(row: Option<Row>, o: Observation, at: nat): Row
    requires o.event.PositionCreated?
  {
    match row
    case None =>
      Row(Some(o.event.user), Some(o.event.entryPrice), Some(o.event.collateral), Some(o.event.direction),
          Some(o.event.expiresAt), Some(o.event.expiresAt - 10), Some(o.signature),
          OpenRow, None, None, None, None, None, None, EVENT_CONTRACT_VERSION, false, o.slot, at)
    case Some(r) =>
      if CreatedDiffers(r, o) then WriteCreated(r, o).(updatedAt := at) else r
  }

  function WriteClosed(r: Row, o: Observation): Row
    requires o.event.PositionClosed?
  {
    r.(status := LifecycleStatus(o.event.outcome), outcome := Some(o.event.outcome), payout := Some(o.event.payout),
       lpFee := Some(o.event.lpFee), platformFee := Some(o.event.platformFee),
       closedAt := if r.closedAt.Some? then r.closedAt else o.blockTime, closedBy := Some(o.signature),
       version := Greatest(r.version, EVENT_CONTRACT_VERSION), partial := r.user.None?,
       lastSlot := Greatest(r.lastSlot, o.slot))
  }

  predicate ClosedDiffers(r: Row, o: Observation)
    requires o.event.PositionClosed?
  {
    || r.status != LifecycleStatus(o.event.outcome) || r.outcome != Some(o.event.outcome)
    || r.payout != Some(o.event.payout)
    || r.lpFee != Some(o.event.lpFee) || r.platformFee != Some(o.event.platformFee) || r.closedBy != Some(o.signature)
    || r.version != EVENT_CONTRACT_VERSION || r.partial != r.user.None? || r.lastSlot != Greatest(r.lastSlot, o.slot)
  }

  function UpsertClosed(row: Option<Row>, o: Observation, at: nat): Row
    requires o.event.PositionClosed?
  {
    match row
    case None =>
      Row(None, None, None, None, None, None, None,
          LifecycleStatus(o.event.outcome), Some(o.event.outcome), Some(o.event.payout), Some(o.event.lpFee),
          Some(o.event.platformFee), o.blockTime, Some(o.signature), EVENT_CONTRACT_VERSION, true, o.slot, at)
    case Some(r) =>
      if ClosedDiffers(r, o) then WriteClosed(r, o).(updatedAt := at) else r
  }

  // ----- deliveries

  /** An observation stored at some database time. */
  datatype Delivery = Delivery(o: Observation, at: nat)

  function Lookup(rows: map<PosId, Row>, id: PosId): Option<Row> {
    if id in rows then Some(rows[id]) else None
  }

  function Deliver(rows: map<PosId, Row>, d: Delivery): map<PosId, Row> {
    match d.o.event
    case PositionCreated(id, _, _, _, _, _) => rows[id := UpsertCreated(Lookup(rows, id), d.o, d.at)]
    case PositionClosed(id, _, _, _, _) => rows[id := UpsertClosed(Lookup(rows, id), d.o, d.at)]
    case _ => rows
  }

  /** The table after a sequence of deliveries. */
  function Rows(ds: seq<Delivery>): map<PosId, Row> {
    if ds == [] then map[] else Deliver(Rows(ds[..|ds| - 1]), ds[|ds| - 1])
  }

  predicate Creates(o: Observation, id: PosId) {
    o.event.PositionCreated? && o.event.id == id
  }

  predicate Closes(o: Observation, id: PosId) {
    o.event.PositionClosed? && o.event.id == id
  }

  /** Two observations of one event; the block time depends on how it was observed. */
  predicate SameEvent(a: Observation, b: Observation) {
    a.(blockTime := None) == b.(blockTime := None)
  }

  /** Every delivered creation of the position is `c` and every delivered close is `x`. */
  ghost predicate Consistent(ds: seq<Delivery>, id: PosId, c: Observation, x: Observation) {
    && Creates(c, id) && Closes(x, id)
    && forall d :: d in ds ==> (Creates(d.o, id) ==> SameEvent(d.o, c)) && (Closes(d.o, id) ==> SameEvent(d.o, x))
  }

  predicate SeenCreated(ds: seq<Delivery>, id: PosId) {
    exists i :: 0 <= i < |ds| && Creates(ds[i].o, id)
  }

  predicate SeenClosed(ds: seq<Delivery>, id: PosId) {
    exists i :: 0 <= i < |ds| && Closes(ds[i].o, id)
  }

  /** A row without the two columns that depend on when events were observed. */
  function Settled(r: Row): Row {
    r.(closedAt := None, updatedAt := 0)
  }

  /** The row a position has once its creation, its close, both or neither are known. */
  function Canonical(created: bool, closed: bool, c: Observation, x: Observation): Option<Row>
    requires c.event.PositionCreated? && x.event.PositionClosed?
  {
    if !created && !closed then None
    else Some(Row(
      if created then Some(c.event.user) else None,
      if created then Some(c.event.entryPrice) else None,
      if created then Some(c.event.collateral) else None,
      if created then Some(c.event.direction) else None,
      if created then Some(c.event.expiresAt) else None,
      if created then Some(c.event.expiresAt - 10) else None,
      if created then Some(c.signature) else None,
      if !closed then OpenRow else if x.event.outcome == Refunded then RefundedRow else SettledRow,
      if closed then Some(x.event.outcome) else None,
      if closed then Some(x.event.payout) else None,
      if closed then Some(x.event.lpFee) else None,
      if closed then Some(x.event.platformFee) else None,
      None,
      if closed then Some(x.signature) else None,
      EVENT_CONTRACT_VERSION,
      !created,
      if created && (!closed || c.slot >= x.slot) then c.slot else x.slot,
      0))
  }

  function SettledLookup(rows: map<PosId, Row>, id: PosId): Option<Row> {
    if id in rows then Some(Settled(rows[id])) else None
  }

  /** One delivery moves the row from one canonical value to the next. */
  lemma DeliverCanonical(
    rows: map<PosId, Row>, d: Delivery, id: PosId, created: bool, closed: bool, c: Observation, x: Observation)
    requires Creates(c, id) && Closes(x, id)
    requires (Creates(d.o, id) ==> SameEvent(d.o, c)) && (Closes(d.o, id) ==> SameEvent(d.o, x))
    requires SettledLookup(rows, id) == Canonical(created, closed, c, x)
    ensures SettledLookup(Deliver(rows, d), id)
        == Canonical(created || Creates(d.o, id), closed || Closes(d.o, id), c, x)
  {
  }

  /** Any order and any duplication of a position's events gives the row of the events seen: the
      guards and the COALESCE make redelivery and reordering invisible. */
  lemma {:induction false} RowsConverge(ds: seq<Delivery>, id: PosId, c: Observation, x: Observation)
    requires Consistent(ds, id, c, x)
    ensures SettledLookup(Rows(ds), id) == Canonical(SeenCreated(ds, id), SeenClosed(ds, id), c, x)
  {
    hide Canonical, Deliver;
    if ds == [] {
      CanonicalNothing(c, x);
    } else {
      var before, d := ds[..|ds| - 1], ds[|ds| - 1];
      RowsConverge(before, id, c, x);
      DeliverCanonical(Rows(before), d, id, SeenCreated(before, id), SeenClosed(before, id), c, x);
      assert SeenCreated(ds, id) == (SeenCreated(before, id) || Creates(d.o, id)) by {
        assert SeenCreated(before, id) ==> exists i :: 0 <= i < |before| && Creates(ds[i].o, id);
      }
      assert SeenClosed(ds, id) == (SeenClosed(before, id) || Closes(d.o, id)) by {
        assert SeenClosed(before, id) ==> exists i :: 0 <= i < |before| && Closes(ds[i].o, id);
      }
    }
  }

  lemma CanonicalNothing(c: Observation, x: Observation)
    requires c.event.PositionCreated? && x.event.PositionClosed?
    ensures Canonical(false, false, c, x) == None
  {
  }

  /** Two delivery sequences of the same events agree on the row, whatever their order and
      repetitions. */
  lemma DeliveryOrderIsInvisible(ds: seq<Delivery>, ds': seq<Delivery>, id: PosId, c: Observation, x: Observation)
    requires Consistent(ds, id, c, x) && Consistent(ds', id, c, x)
    requires SeenCreated(ds, id) == SeenCreated(ds', id) && SeenClosed(ds, id) == SeenClosed(ds', id)
    ensures SettledLookup(Rows(ds), id) == SettledLookup(Rows(ds'), id)
  {
    RowsConverge(ds, id, c, x);
    RowsConverge(ds', id, c, x);
  }

  /** No row ever returns from settled or refunded to open, whatever is delivered next. */
  lemma {:induction false} NeverReopens(ds: seq<Delivery>, n: nat, id: PosId)
    requires n <= |ds| && id in Rows(ds[..n]) && Rows(ds[..n])[id].status != OpenRow
    ensures id in Rows(ds) && Rows(ds)[id].status != OpenRow
  {
    if n == |ds| {
      assert ds[..n] == ds;
    } else {
      assert ds[..|ds| - 1][..n] == ds[..n];
      NeverReopens(ds[..|ds| - 1], n, id);
    }
  }

  /** The guards skip exactly the updates that would change nothing but the time of the update
      and, for a close, an empty closing time. */
  lemma GuardsSkipOnlyTimes(r: Row, o: Observation)
    ensures o.event.PositionCreated? && r.version == EVENT_CONTRACT_VERSION ==>
              (CreatedDiffers(r, o) <==> WriteCreated(r, o) != r)
    ensures o.event.PositionClosed? && r.version == EVENT_CONTRACT_VERSION ==>
              (ClosedDiffers(r, o) <==> WriteClosed(r, o).(closedAt := r.closedAt) != r)
  {
  }

  /** So a close first observed without a block time keeps an empty closing time, although the
      COALESCE of the update would fill it: the same close with a time changes nothing. */
  lemma ClosingTimeStaysEmpty(x: Observation, at: nat, at': nat, time: i64)
    requires x.event.PositionClosed? && x.blockTime == None
    ensures UpsertClosed(Some(UpsertClosed(None, x, at)), x.(blockTime := Some(time)), at').closedAt == None
    ensures WriteClosed(UpsertClosed(None, x, at), x.(blockTime := Some(time))).closedAt == Some(time)
  {
  }

  /** The two columns that depend on when events were observed, exactly: a closing time once known is
      kept, an unknown one is taken from a close that changes something else, and the time of the
      update moves with every change that the guards let through and with no other. */
  lemma TimesExactly(r: Row, o: Observation, at: nat)
    ensures o.event.PositionClosed? ==>
              var after := UpsertClosed(Some(r), o, at);
              && after.closedAt == (if r.closedAt.Some? || !ClosedDiffers(r, o) then r.closedAt else o.blockTime)
              && after.updatedAt == (if ClosedDiffers(r, o) then at else r.updatedAt)
              && UpsertClosed(None, o, at).closedAt == o.blockTime && UpsertClosed(None, o, at).updatedAt == at
    ensures o.event.PositionCreated? ==>
              var after := UpsertCreated(Some(r), o, at);
              && after.closedAt == r.closedAt
              && after.updatedAt == (if CreatedDiffers(r, o) then at else r.updatedAt)
              && UpsertCreated(None, o, at).closedAt == None && UpsertCreated(None, o, at).updatedAt == at
  {
  }

  /** A closing time never changes once it is known, whatever is delivered next. */
  lemma {:induction false} FirstClosingTimeStays(ds: seq<Delivery>, n: nat, id: PosId)
    requires n <= |ds| && id in Rows(ds[..n]) && Rows(ds[..n])[id].closedAt.Some?
    ensures id in Rows(ds) && Rows(ds)[id].closedAt == Rows(ds[..n])[id].closedAt
  {
    if n == |ds| {
      assert ds[..n] == ds;
    } else {
      assert ds[..|ds| - 1][..n] == ds[..n];
      FirstClosingTimeStays(ds[..|ds| - 1], n, id);
    }
  }
}
