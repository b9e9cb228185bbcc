/** The accounts the instructions update in place. */
module Accounts {
  import opened Rust
  import opened Protocol
  import opened Lists
  import opened Instructions

  class MarketAccount {
    const marketId: MarketId
    const feedId: nat
    var totalShares: u128
    var openCollateral: u64
    var riskEpochEquity: u64
    var activePositions: u32
    var nextNonce: u32
    var mode: MarketMode

    function View(): Market
      reads this
    {
      Market(marketId, feedId, totalShares, openCollateral, riskEpochEquity, activePositions, nextNonce, mode)
    }

    constructor (marketId: MarketId, feedId: nat)
      ensures View() == Market(marketId, feedId, 0, 0, 0, 0, 0, Open)
    {
      this.marketId, this.feedId := marketId, feedId;
      totalShares, openCollateral, riskEpochEquity, activePositions, nextNonce := 0, 0, 0, 0, 0;
      mode := Open;
    }
  }

  class TokenAccount {
    var amount: u64

    constructor (amount: u64)
      ensures this.amount == amount
    {
      this.amount := amount;
    }

    /** `token::transfer` between two distinct accounts. */
    static method Transfer(from: TokenAccount, to: TokenAccount, amount: u64) returns (r: Result<()>)
      requires from != to
      modifies from, to
      ensures match TransferBalances(old(from.amount), old(to.amount), amount)
              case Ok(moved) => r.Ok? && from.amount == moved.0 && to.amount == moved.1
              case Err(e) => r == Err(e) && from.amount == old(from.amount) && to.amount == old(to.amount)
    {
      var _ :- Require(amount <= from.amount, InsufficientFunds);
      var _ :- Require(to.amount + amount <= U64_MAX, TokenOverflow);
      from.amount := from.amount - amount;
      to.amount := to.amount + amount;
      return Ok(());
    }
  }

  class UserPositions {
    var positions: seq<Position>

    constructor ()
      ensures positions == []
    {
      positions := [];
    }

    method RequireCapacity() returns (r: Result<()>)
      ensures r == Require(|positions| < USER_POSITIONS_CAPACITY, UserPositionsCapacityExceeded)
    {
      r := Require(|positions| < USER_POSITIONS_CAPACITY, UserPositionsCapacityExceeded);
    }

    method FindIndex(id: PosId) returns (r: Option<nat>)
      ensures r == PositionIndex(positions, id)
    {
      for i := 0 to |positions|
        invariant forall j :: 0 <= j < i ==> positions[j].Id() != id
      {
        if positions[i].Id() == id {
          return Some(i);
        }
      }
      return None;
    }

    /** The checked fold over this user's positions in one market. */
    method OpenCollateral(m: MarketId) returns (r: Result<u64>)
      ensures r == UserOpenCollateral(positions, m)
    {
      var sum: u64 := 0;
      for i := 0 to |positions|
        invariant sum == Total(positions[..i], m, CollateralOf)
      {
        assert positions[..i + 1][..i] == positions[..i];
        if positions[i].marketId == m {
          if sum + positions[i].collateral > U64_MAX {
            TotalPrefix(positions, i + 1, m, CollateralOf);
            return Err(MathOverflow);
          }
          sum := sum + positions[i].collateral;
        }
      }
      assert positions[..|positions|] == positions;
      return Ok(sum);
    }

    method Remove(index: nat)
      requires index < |positions|
      modifies this
      ensures positions == SwapRemove(old(positions), index)
    {
      var last := |positions| - 1;
      positions := positions[index := positions[last]][..last];
      assert index < last ==> positions == old(positions)[..last][index := old(positions)[last]];
    }
  }

  lemma {:induction false} TotalPrefix(ps: seq<Position>, n: nat, m: MarketId, measure: Measure)
    requires n <= |ps|
    ensures Total(ps[..n], m, measure) <= Total(ps, m, measure)
  {
    if n == |ps| {
      assert ps[..n] == ps;
    } else {
      TotalPrefix(ps[..|ps| - 1], n, m, measure);
      assert ps[..|ps| - 1][..n] == ps[..n];
    }
  }

  class UserLiquidity {
    var entries: seq<LiquidityEntry>

    constructor ()
      ensures entries == []
    {
      entries := [];
    }

    method Find(m: MarketId) returns (r: Option<nat>)
      ensures r == EntryIndex(entries, m)
    {
      for i := 0 to |entries|
        invariant forall j :: 0 <= j < i ==> entries[j].marketId != m
      {
        if entries[i].marketId == m {
          return Some(i);
        }
      }
      return None;
    }

    /** The index of the market's entry, which is appended when missing. */
    method FindOrInsert(m: MarketId) returns (r: Result<nat>)
      modifies this
      ensures match MarketOrInsert(old(entries), m)
              case Ok(slot) => r == Ok(slot.1) && entries == slot.0
              case Err(e) => r == Err(e) && entries == old(entries)
    {
      var found := Find(m);
      if found.Some? {
        return Ok(found.value);
      }
      var _ :- Require(|entries| < USER_LIQUIDITY_MARKET_CAPACITY, UserLiquidityCapacityExceeded);
      entries := entries + [LiquidityEntry(m, 0, 0, 0)];
      return Ok(|entries| - 1);
    }

    method RemoveEmpty(m: MarketId)
      modifies this
      ensures entries == RemoveEmptyMarket(old(entries), m)
    {
      var i := 0;
      while i < |entries| && !IsEmptyEntry(entries[i], m)
        invariant i <= |entries|
        invariant forall j :: 0 <= j < i ==> !IsEmptyEntry(entries[j], m)
      {
        i := i + 1;
      }
      if i < |entries| {
        var last := |entries| - 1;
        entries := entries[i := entries[last]][..last];
        assert i < last ==> entries == old(entries)[..last][i := old(entries)[last]];
      }
    }
  }

  class EventLog {
    var events: seq<Event>

    constructor ()
      ensures events == []
    {
      events := [];
    }

    method Emit(e: Event)
      modifies this
      ensures events == old(events) + [e]
    {
      events := events + [e];
    }
  }
}
