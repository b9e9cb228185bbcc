/** The newest-first crawl of a program's transaction signatures, page by page. */
module Crawl {
  import opened Rust

  type Signature = nat

  /** A transaction of the program as the RPC node serves it. */
  datatype Tx = Tx(signature: Signature, slot: u64, failed: bool, hasMeta: bool, blockTime: Option<i64>,
                   logs: seq<string>)

  const OVERLAP := 32
  const MAX_LIMIT := 10_000
  const MAX_PAGE := 1_000

  ghost predicate DistinctSignatures(h: seq<Tx>) {
    forall i, j :: 0 <= i < j < |h| ==> h[i].signature != h[j].signature
  }

  /** Where a signature sits in a history. */
  function IndexOf(h: seq<Tx>, signature: Signature): (r: Option<nat>)
    ensures r.Some? ==> r.value < |h| && h[r.value].signature == signature
    ensures r.None? ==> forall j :: 0 <= j < |h| ==> h[j].signature != signature
  {
    if h == [] then None
    else if h[|h| - 1].signature == signature then Some(|h| - 1)
    else IndexOf(h[..|h| - 1], signature)
  }

  lemma IndexOfAt(h: seq<Tx>, i: nat)
    requires DistinctSignatures(h) && i < |h|
    ensures IndexOf(h, h[i].signature) == Some(i)
  {
  }

  /** `getSignaturesForAddress` on a newest-first history: at most `size` entries older than `before`. */
  function Page(h: seq<Tx>, before: Option<Signature>, size: nat): seq<Tx> {
    match before
    case None => h[..Min(size, |h|)]
    case Some(signature) =>
      match IndexOf(h, signature)
      case None => []
      case Some(i) => h[i + 1..Min(i + 1 + size, |h|)]
  }

  function Clamp(limit: nat): nat {
    if limit < 1 then 1 else if limit > MAX_LIMIT then MAX_LIMIT else limit
  }

  /** The cursor's distance from the newest entry. */
  function CursorAt(h: seq<Tx>, cursor: Option<Signature>): (r: Option<nat>)
    ensures r.Some? ==> r.value < |h| && cursor == Some(h[r.value].signature)
  {
    match cursor
    case None => None
    case Some(signature) => IndexOf(h, signature)
  }

  /** How much of the history a crawl collects. */
  function Reach(h: seq<Tx>, limit: nat, cursor: Option<Signature>): (r: nat)
    ensures r <= |h|
  {
    match CursorAt(h, cursor)
    case Some(k) => if k < Clamp(limit) then Min(Min(|h|, Clamp(limit)), k + OVERLAP + 1) else Min(|h|, Clamp(limit))
    case None => Min(|h|, Clamp(limit))
  }

  /** In plain numbers: for a limit between 1 and 10,000, a cursor at index k below it ends the crawl
      after 32 more entries; any other crawl takes the limit or the whole history. */
  lemma ReachInNumbers(h: seq<Tx>, limit: nat, cursor: Option<Signature>)
    ensures var maximum := if limit == 0 then 1 else if limit <= 10_000 then limit else 10_000;
            var whole := if |h| <= maximum then |h| else maximum;
            match CursorAt(h, cursor)
            case Some(k) =>
              && (Reaches(h, limit, cursor) <==> k < maximum)
              && (k < maximum ==> Reach(h, limit, cursor) == if k + 33 <= whole then k + 33 else whole)
              && (k >= maximum ==> Reach(h, limit, cursor) == maximum)
            case None => !Reaches(h, limit, cursor) && Reach(h, limit, cursor) == whole
  {
    hide IndexOf;
  }

  predicate Reaches(h: seq<Tx>, limit: nat, cursor: Option<Signature>) {
    CursorAt(h, cursor).Some? && CursorAt(h, cursor).value < Clamp(limit)
  }

  lemma PageAfter(h: seq<Tx>, start: nat, size: nat)
    requires DistinctSignatures(h) && start <= |h|
    ensures Page(h, if start == 0 then None else Some(h[start - 1].signature), size) == h[start..Min(start + size, |h|)]
  {
    if start > 0 {
      IndexOfAt(h, start - 1);
    }
  }

  lemma CursorHit(h: seq<Tx>, cursor: Option<Signature>, j: nat)
    requires DistinctSignatures(h) && j < |h|
    ensures cursor == Some(h[j].signature) <==> CursorAt(h, cursor) == Some(j)
  {
    IndexOfAt(h, j);
  }

  /** The bookkeeping of the crawl once `n` entries are collected: whether the cursor is among them
      and how many follow it. */
  predicate Tally(at: Option<nat>, n: nat, cursorFound: bool, overlap: nat) {
    && (cursorFound <==> at.Some? && at.value < n)
    && overlap == (if cursorFound then n - at.value - 1 else 0)
    && overlap <= OVERLAP
  }

  /** Where the crawl stops: at the end of the history, at its limit or after the full overlap. */
  lemma StopsAtReach(h: seq<Tx>, limit: nat, cursor: Option<Signature>, n: nat, cursorFound: bool, overlap: nat)
    requires n <= |h| && n <= Clamp(limit) && Tally(CursorAt(h, cursor), n, cursorFound, overlap)
    requires n == |h| || n == Clamp(limit) || (cursorFound && overlap == OVERLAP)
    ensures n == Reach(h, limit, cursor) && (cursorFound <==> Reaches(h, limit, cursor))
  {
  }

  datatype Report = Report(signatures: seq<Tx>, cursorFound: bool)

  /** The nested loop collects exactly a prefix of the history, whatever the page boundaries: up to
      the cursor and its overlap when the cursor is within the limit, up to the limit otherwise. */
  method CollectSignatures(h: seq<Tx>, limit: nat, cursor: Option<Signature>) returns (r: Report)
    requires DistinctSignatures(h)
    ensures r.signatures == h[..Reach(h, limit, cursor)]
    ensures r.cursorFound <==> Reaches(h, limit, cursor)
  {
    hide Page, IndexOf, CursorAt, DistinctSignatures, Reach, Reaches;
    var maximum := Clamp(limit);
    var pageSize := Min(maximum, MAX_PAGE);
    var before: Option<Signature> := None;
    var signatures: seq<Tx> := [];
    var cursorFound := false;
    var overlap: nat := 0;
    ghost var at := CursorAt(h, cursor);
    label crawl:
    while true
      invariant |signatures| <= |h| && signatures == h[..|signatures|] && |signatures| <= maximum
      invariant before == if signatures == [] then None else Some(h[|signatures| - 1].signature)
      invariant Tally(at, |signatures|, cursorFound, overlap)
      decreases |h| - |signatures|
    {
      var page := Page(h, before, pageSize);
      ghost var start := |signatures|;
      PageAfter(h, start, pageSize);
      if |page| == 0 {
        StopsAtReach(h, limit, cursor, |signatures|, cursorFound, overlap);
        break crawl;
      }
      before := Some(page[|page| - 1].signature);
      for i := 0 to |page|
        invariant |signatures| == start + i && signatures == h[..|signatures|] && |signatures| <= maximum
        invariant Tally(at, |signatures|, cursorFound, overlap)
      {
        var item := page[i];
        CursorHit(h, cursor, start + i);
        if |signatures| >= maximum {
          StopsAtReach(h, limit, cursor, |signatures|, cursorFound, overlap);
          break crawl;
        }
        if cursor == Some(item.signature) {
          cursorFound := true;
        } else if cursorFound {
          overlap := overlap + 1;
          if overlap > OVERLAP {
            StopsAtReach(h, limit, cursor, |signatures|, cursorFound, overlap - 1);
            break crawl;
          }
        }
        signatures := signatures + [item];
      }
      if |page| < pageSize {
        StopsAtReach(h, limit, cursor, |signatures|, cursorFound, overlap);
        break crawl;
      }
    }
    r := Report(signatures, cursorFound);
  }
}
