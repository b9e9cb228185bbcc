/** The bounded vectors of a user's positions and liquidity entries, as values: lookups, the
    push and swap_remove that change them, and the sums over them. */
module Lists {
  import opened Rust
  import opened Protocol

  /** `Vec::swap_remove`: the last element takes the place of the removed one. */
  function SwapRemove<T>(s: seq<T>, i: nat): (r: seq<T>)
    requires i < |s|
    ensures |r| == |s| - 1
    ensures multiset(r) == multiset(s) - multiset{s[i]}
  {
    var last := |s| - 1;
    assert s == s[..last] + [s[last]];
    if i == last then s[..last]
    else
      assert s[..last] == s[..i] + [s[i]] + s[i + 1..last];
      assert s[..last][i := s[last]] == s[..i] + [s[last]] + s[i + 1..last];
      s[..last][i := s[last]]
  }

  /** The first position with this name. */
  function PositionIndex(ps: seq<Position>, id: PosId): (r: Option<nat>)
    ensures r.Some? ==> r.value < |ps| && ps[r.value].Id() == id && (forall j :: 0 <= j < r.value ==> ps[j].Id() != id)
    ensures r.None? ==> forall j :: 0 <= j < |ps| ==> ps[j].Id() != id
  {
    if ps == [] then None
    else if ps[0].Id() == id then Some(0)
    else
      match PositionIndex(ps[1..], id)
      case Some(i) =>
        assert forall j :: 0 < j < |ps| ==> ps[j] == ps[1..][j - 1];
        Some(i + 1)
      case None =>
        assert forall j :: 0 < j < |ps| ==> ps[j] == ps[1..][j - 1];
        None
  }

  /** What is summed over a list of positions for one market. */
  datatype Measure = CollateralOf | CountOf

  function Weight(p: Position, m: MarketId, measure: Measure): nat {
    if p.marketId != m then 0
    else match measure
      case CollateralOf => p.collateral
      case CountOf => 1
  }

  function Total(ps: seq<Position>, m: MarketId, measure: Measure): nat {
    if ps == [] then 0
    else Total(ps[..|ps| - 1], m, measure) + Weight(ps[|ps| - 1], m, measure)
  }

  lemma TotalPush(ps: seq<Position>, p: Position, m: MarketId, measure: Measure)
    ensures Total(ps + [p], m, measure) == Total(ps, m, measure) + Weight(p, m, measure)
  {
    assert (ps + [p])[..|ps|] == ps;
  }

  lemma {:induction false} TotalUpdate(ps: seq<Position>, i: nat, p: Position, m: MarketId, measure: Measure)
    requires i < |ps|
    ensures Total(ps[i := p], m, measure) == Total(ps, m, measure) - Weight(ps[i], m, measure) + Weight(p, m, measure)
  {
    var last := |ps| - 1;
    if i == last {
      assert ps[i := p][..last] == ps[..last];
    } else {
      TotalUpdate(ps[..last], i, p, m, measure);
      assert ps[i := p][..last] == ps[..last][i := p];
    }
  }

  lemma TotalSwapRemove(ps: seq<Position>, i: nat, m: MarketId, measure: Measure)
    requires i < |ps|
    ensures Total(SwapRemove(ps, i), m, measure) == Total(ps, m, measure) - Weight(ps[i], m, measure)
  {
    var last := |ps| - 1;
    if i < last {
      TotalUpdate(ps[..last], i, ps[last], m, measure);
    }
  }

  lemma {:induction false} TotalAtLeast(ps: seq<Position>, i: nat, m: MarketId, measure: Measure)
    requires i < |ps|
    ensures Weight(ps[i], m, measure) <= Total(ps, m, measure)
  {
    if i < |ps| - 1 {
      TotalAtLeast(ps[..|ps| - 1], i, m, measure);
    }
  }

  /** Without a position in the market there is nothing to sum; with one, both sums are positive. */
  lemma {:induction false} TotalZero(ps: seq<Position>, m: MarketId)
    requires Total(ps, m, CountOf) == 0
    ensures Total(ps, m, CollateralOf) == 0
  {
    if ps != [] {
      TotalZero(ps[..|ps| - 1], m);
    }
  }

  lemma {:induction false} TotalBounded(ps: seq<Position>, m: MarketId)
    ensures Total(ps, m, CollateralOf) <= 0xFFFF_FFFF * |ps|
  {
    if ps != [] {
      TotalBounded(ps[..|ps| - 1], m);
    }
  }

  ghost predicate DistinctIds(ps: seq<Position>) {
    forall i, j :: 0 <= i < j < |ps| ==> ps[i].Id() != ps[j].Id()
  }

  lemma SwapRemoveMembers(ps: seq<Position>, i: nat)
    requires i < |ps| && DistinctIds(ps)
    ensures DistinctIds(SwapRemove(ps, i))
    ensures forall p :: p in SwapRemove(ps, i) <==> p in ps && p.Id() != ps[i].Id()
  {
    var r := SwapRemove(ps, i);
    forall p | p in ps && p.Id() != ps[i].Id()
      ensures p in r
    {
      var k :| 0 <= k < |ps| && ps[k] == p;
      assert if k == |ps| - 1 then r[i] == p else r[k] == p;
    }
  }

  /** The first entry for this market. */
  function EntryIndex(ls: seq<LiquidityEntry>, m: MarketId): (r: Option<nat>)
    ensures r.Some? ==>
        r.value < |ls| && ls[r.value].marketId == m && (forall j :: 0 <= j < r.value ==> ls[j].marketId != m)
    ensures r.None? ==> forall j :: 0 <= j < |ls| ==> ls[j].marketId != m
  {
    if ls == [] then None
    else if ls[0].marketId == m then Some(0)
    else
      match EntryIndex(ls[1..], m)
      case Some(i) =>
        assert forall j :: 0 < j < |ls| ==> ls[j] == ls[1..][j - 1];
        Some(i + 1)
      case None =>
        assert forall j :: 0 < j < |ls| ==> ls[j] == ls[1..][j - 1];
        None
  }

  /** The shares a list holds in a market. */
  function SharesIn(ls: seq<LiquidityEntry>, m: MarketId): nat {
    match EntryIndex(ls, m)
    case Some(i) => ls[i].shares
    case None => 0
  }

  /** The list in which the market has an entry, and that entry's index. */
  function MarketOrInsert(ls: seq<LiquidityEntry>, m: MarketId): (r: Result<(seq<LiquidityEntry>, nat)>)
    ensures r.Ok? ==> r.value.1 < |r.value.0| && r.value.0[r.value.1].marketId == m
    ensures r.Ok? ==> forall j :: 0 <= j < r.value.1 ==> r.value.0[j].marketId != m
    ensures (exists j :: 0 <= j < |ls| && ls[j].marketId == m) ==> r.Ok? && r.value.0 == ls
    ensures !(exists j :: 0 <= j < |ls| && ls[j].marketId == m) ==>
              r == if |ls| < USER_LIQUIDITY_MARKET_CAPACITY then Ok((ls + [LiquidityEntry(m, 0, 0, 0)], |ls|))
                   else Err(UserLiquidityCapacityExceeded)
  {
    match EntryIndex(ls, m)
    case Some(i) => Ok((ls, i))
    case None =>
      var _ :- Require(|ls| < USER_LIQUIDITY_MARKET_CAPACITY, UserLiquidityCapacityExceeded);
      Ok((ls + [LiquidityEntry(m, 0, 0, 0)], |ls|))
  }

  predicate IsEmptyEntry(e: LiquidityEntry, m: MarketId) {
    e.marketId == m && e.shares == 0 && e.pending == 0
  }

  function EmptyEntryIndex(ls: seq<LiquidityEntry>, m: MarketId): (r: Option<nat>)
    ensures r.Some? ==>
        r.value < |ls| && IsEmptyEntry(ls[r.value], m) && (forall j :: 0 <= j < r.value ==> !IsEmptyEntry(ls[j], m))
    ensures r.None? ==> forall j :: 0 <= j < |ls| ==> !IsEmptyEntry(ls[j], m)
  {
    if ls == [] then None
    else if IsEmptyEntry(ls[0], m) then Some(0)
    else
      match EmptyEntryIndex(ls[1..], m)
      case Some(i) =>
        assert forall j :: 0 < j < |ls| ==> ls[j] == ls[1..][j - 1];
        Some(i + 1)
      case None =>
        assert forall j :: 0 < j < |ls| ==> ls[j] == ls[1..][j - 1];
        None
  }

  function RemoveEmptyMarket(ls: seq<LiquidityEntry>, m: MarketId): seq<LiquidityEntry> {
    match EmptyEntryIndex(ls, m)
    case Some(i) => SwapRemove(ls, i)
    case None => ls
  }
}
