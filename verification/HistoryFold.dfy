/** The client's cost basis and share count, folded over a user's liquidity events, against the
    program's own books. */
module HistoryFold {
  import opened Rust
  import opened Protocol
  import opened Arithmetic
  import opened MarketMath
  import opened Lists
  import opened Instructions
  import opened InstructionFacts
  import opened Chain
  import opened Invariants
  import LpTheorems
  import opened Journaling
  import Runs

  datatype EventKind = DepositKind | RequestedKind | CancelledKind | ExecutedKind

  /** An event as the API serves it. */
  datatype IndexedEvent = IndexedEvent(kind: EventKind, assets: Option<nat>, shares: nat)

  datatype Summary = Summary(deposited: nat, shares: nat)

  /** The cost basis left with the remaining shares, rounded down. */
  function ProRata(deposited: nat, remaining: nat, shares: nat): (r: nat)
    requires remaining <= shares && shares > 0
    ensures r <= deposited
  {
    MulMono(remaining, shares, deposited);
    MulMono(0, remaining, deposited);
    assert (deposited + 1) * shares == deposited * shares + shares;
    FloorIsGreatest(deposited * remaining, shares, 0);
    FloorIsGreatest(deposited * remaining, shares, deposited + 1);
    (deposited * remaining) / shares
  }

  /** One event, oldest first; `None` is an exception. */
  function FoldOne(s: Summary, e: IndexedEvent): Option<Summary> {
    match e.kind
    case DepositKind =>
      if e.assets.None? then None else Some(Summary(s.deposited + e.assets.value, s.shares + e.shares))
    case ExecutedKind =>
      if e.shares > s.shares then None
      else if e.shares == s.shares then Some(Summary(0, 0))
      else Some(Summary(ProRata(s.deposited, s.shares - e.shares, s.shares), s.shares - e.shares))
    case _ => Some(s)
  }

  function Fold(events: seq<IndexedEvent>): Option<Summary> {
    if events == [] then Some(Summary(0, 0))
    else
      match Fold(events[..|events| - 1])
      case None => None
      case Some(s) => FoldOne(s, events[|events| - 1])
  }

  function Reversed<T>(s: seq<T>): seq<T> {
    seq(|s|, i requires 0 <= i < |s| => s[|s| - 1 - i])
  }

  method SummarizeLiquidityHistory(newestFirst: seq<IndexedEvent>) returns (r: Option<Summary>)
    ensures r == Fold(Reversed(newestFirst))
  {
    hide ProRata;
    var deposited: nat := 0;
    var shares: nat := 0;
    var oldestFirst := Reversed(newestFirst);
    for i := 0 to |oldestFirst|
      invariant Fold(oldestFirst[..i]) == Some(Summary(deposited, shares))
    {
      var event := oldestFirst[i];
      assert oldestFirst[..i + 1][..i] == oldestFirst[..i];
      if event.kind == DepositKind {
        if event.assets == None {
          FoldFails(oldestFirst, i + 1);
          return None;
        }
        shares := shares + event.shares;
        deposited := deposited + event.assets.value;
        continue;
      }
      if event.kind != ExecutedKind {
        continue;
      }
      if event.shares > shares {
        FoldFails(oldestFirst, i + 1);
        return None;
      }
      if event.shares == shares {
        deposited := 0;
        shares := 0;
        continue;
      }
      var remaining := shares - event.shares;
      deposited := ProRata(deposited, remaining, shares);
      shares := remaining;
    }
    assert oldestFirst[..|oldestFirst|] == oldestFirst;
    return Some(Summary(deposited, shares));
  }

  lemma {:induction false} FoldFails(events: seq<IndexedEvent>, n: nat)
    requires n <= |events| && Fold(events[..n]) == None
    ensures Fold(events) == None
  {
    hide FoldOne;
    if n == |events| {
      assert events[..n] == events;
    } else {
      assert events[..|events| - 1][..n] == events[..n];
      FoldFails(events[..|events| - 1], n);
    }
  }

  // ----- cost basis

  function TotalDeposits(events: seq<IndexedEvent>): nat {
    if events == [] then 0
    else
      var e := events[|events| - 1];
      TotalDeposits(events[..|events| - 1]) + if e.kind == DepositKind && e.assets.Some? then e.assets.value else 0
  }

  /** Whatever the events, the cost basis never exceeds the total of all deposits, and it is zero
      when no shares are left. */
  lemma {:induction false} CostBasisBounded(events: seq<IndexedEvent>)
    requires Fold(events).Some? && forall e :: e in events && e.kind == DepositKind ==> e.shares > 0
    ensures Fold(events).value.deposited <= TotalDeposits(events)
    ensures Fold(events).value.shares == 0 ==> Fold(events).value.deposited == 0
  {
    hide ProRata;
    if events != [] {
      var before, e := events[..|events| - 1], events[|events| - 1];
      CostBasisBounded(before);
    }
  }

  /** The basis, determined: a deposit raises it by exactly its amount; a redemption of some of the
      shares leaves the part that belongs to the remaining ones, rounded down; a redemption of all of
      them leaves nothing; and no other event changes it. */
  lemma BasisExactly(before: seq<IndexedEvent>, e: IndexedEvent)
    requires Fold(before).Some? && Fold(before + [e]).Some?
    ensures var s, after := Fold(before).value, Fold(before + [e]).value;
            && (e.kind == DepositKind ==>
                e.assets.Some? && after.deposited == s.deposited + e.assets.value
                    && after.shares == s.shares + e.shares)
            && (e.kind == ExecutedKind ==> e.shares <= s.shares && after.shares == s.shares - e.shares)
            && (e.kind == ExecutedKind && e.shares < s.shares ==>
                && after.deposited * s.shares <= s.deposited * (s.shares - e.shares)
                && s.deposited * (s.shares - e.shares) < (after.deposited + 1) * s.shares)
            && (e.kind == ExecutedKind && e.shares == s.shares ==> after.deposited == 0)
            && (e.kind == RequestedKind || e.kind == CancelledKind ==> after == s)
  {
    var s := Fold(before).value;
    assert (before + [e])[..|before|] == before;
    if e.kind == ExecutedKind && e.shares < s.shares {
      FloorBounds(s.deposited * (s.shares - e.shares), s.shares);
      OneMoreUnit(ProRata(s.deposited, s.shares - e.shares, s.shares), s.shares);
    }
  }

  lemma OneMoreUnit(q: int, n: int)
    ensures (q + 1) * n == q * n + n
  {
  }

  /** Without executions the basis is the total of the deposits. */
  lemma {:induction false} BasisOfDeposits(events: seq<IndexedEvent>)
    requires Fold(events).Some? && forall e :: e in events ==> e.kind != ExecutedKind
    ensures Fold(events).value.deposited == TotalDeposits(events)
  {
    if events != [] {
      BasisOfDeposits(events[..|events| - 1]);
    }
  }

  // ----- against the chain

  /** What the API serves of one chain event for one user and market. */
  function Indexed(e: Event, u: Pubkey, m: MarketId): seq<IndexedEvent> {
    match e
    case LiquidityDeposited(m', u', assets, shares) =>
      if u == u' && m == m' then [IndexedEvent(DepositKind, Some(assets), shares)] else []
    case WithdrawalRequested(m', u', shares, _) =>
      if u == u' && m == m' then [IndexedEvent(RequestedKind, None, shares)] else []
    case WithdrawalCancelled(m', u', shares) =>
      if u == u' && m == m' then [IndexedEvent(CancelledKind, None, shares)] else []
    case WithdrawalExecuted(m', u', shares, assets) =>
      if u == u' && m == m' then [IndexedEvent(ExecutedKind, Some(assets), shares)] else []
    case _ => []
  }

  function HistoryOf(log: seq<Event>, u: Pubkey, m: MarketId): seq<IndexedEvent> {
    if log == [] then [] else HistoryOf(log[..|log| - 1], u, m) + Indexed(log[|log| - 1], u, m)
  }

  /** How many shares an event adds. */
  function Delta(e: IndexedEvent): int {
    match e.kind
    case DepositKind => e.shares
    case ExecutedKind => -(e.shares as int)
    case _ => 0
  }

  /** The shares left by a list of events, counted without regard to order. */
  function Net(events: seq<IndexedEvent>): int {
    if events == [] then 0 else Net(events[..|events| - 1]) + Delta(events[|events| - 1])
  }

  /** Every deposit carries its amount. */
  ghost predicate Priced(events: seq<IndexedEvent>) {
    forall e :: e in events && e.kind == DepositKind ==> e.assets.Some?
  }

  /** No prefix of the events redeems more shares than it deposits. */
  ghost predicate NeverOverdrawn(events: seq<IndexedEvent>) {
    forall n :: 0 <= n <= |events| ==> Net(events[..n]) >= 0
  }

  lemma FoldOneExactly(s: Summary, e: IndexedEvent)
    ensures FoldOne(s, e).Some? <==> s.shares + Delta(e) >= 0 && (e.kind == DepositKind ==> e.assets.Some?)
    ensures FoldOne(s, e).Some? ==> FoldOne(s, e).value.shares == s.shares + Delta(e)
  {
    hide ProRata;
  }

  lemma NothingOverdrawn()
    ensures Priced([]) && NeverOverdrawn([])
  {
  }

  lemma OneMoreEvent(events: seq<IndexedEvent>)
    requires events != []
    ensures var before, e := events[..|events| - 1], events[|events| - 1];
            && (Priced(events) <==> Priced(before) && (e.kind == DepositKind ==> e.assets.Some?))
            && (NeverOverdrawn(events) <==> NeverOverdrawn(before) && Net(before) + Delta(e) >= 0)
            && (NeverOverdrawn(before) ==> Net(before) >= 0)
  {
    hide Delta;
    var before, e := events[..|events| - 1], events[|events| - 1];
    assert events == before + [e];
    assert events[..|events|] == events && before[..|before|] == before;
    assert forall n :: 0 <= n < |events| ==> events[..n] == before[..n];
  }

  /** The summary of any list, in whatever order it comes, is defined if and only if its deposits carry
      their amounts and no prefix overdraws; it then counts exactly the shares left. */
  lemma {:induction false} FoldSucceedsExactly(events: seq<IndexedEvent>)
    ensures Fold(events).Some? <==> Priced(events) && NeverOverdrawn(events)
    ensures Fold(events).Some? ==> Fold(events).value.shares == Net(events)
  {
    hide FoldOne, Delta, NeverOverdrawn, Priced;
    if events == [] {
      NothingOverdrawn();
    } else {
      var before, e := events[..|events| - 1], events[|events| - 1];
      FoldSucceedsExactly(before);
      OneMoreEvent(events);
      if Fold(before).Some? {
        FoldOneExactly(Fold(before).value, e);
      }
    }
  }

  lemma {:induction false} NetConcat(a: seq<IndexedEvent>, b: seq<IndexedEvent>)
    ensures Net(a + b) == Net(a) + Net(b) && TotalDeposits(a + b) == TotalDeposits(a) + TotalDeposits(b)
  {
    hide Delta;
    if b == [] {
      assert a + b == a;
    } else {
      assert (a + b)[..|a + b| - 1] == a + b[..|b| - 1];
      NetConcat(a, b[..|b| - 1]);
    }
  }

  /** The order of the events changes neither sum. */
  lemma {:induction false} NetByMultiset(a: seq<IndexedEvent>, b: seq<IndexedEvent>)
    requires multiset(a) == multiset(b)
    ensures Net(a) == Net(b) && TotalDeposits(a) == TotalDeposits(b)
    decreases |a|
  {
    hide Delta, Net, TotalDeposits;
    assert |multiset(a)| == |a| && |multiset(b)| == |b|;
    if a != [] {
      var front, e := a[..|a| - 1], a[|a| - 1];
      assert a == front + [e];
      assert e in multiset(b);
      var j :| 0 <= j < |b| && b[j] == e;
      NetWithout(b, j);
      NetWithout(a, |a| - 1);
      assert a[..|a| - 1] + a[|a|..] == front;
      NetByMultiset(front, b[..j] + b[j + 1..]);
    }
  }

  /** One event taken out of a list takes its own part out of both sums. */
  lemma NetWithout(b: seq<IndexedEvent>, j: nat)
    requires j < |b|
    ensures var rest := b[..j] + b[j + 1..];
            && multiset(rest) == multiset(b) - multiset{b[j]}
            && Net(b) == Net(rest) + Net([b[j]]) && TotalDeposits(b) == TotalDeposits(rest) + TotalDeposits([b[j]])
  {
    hide Net, TotalDeposits;
    assert b == b[..j] + [b[j]] + b[j + 1..];
    NetConcat(b[..j], [b[j]]);
    NetConcat(b[..j] + [b[j]], b[j + 1..]);
    NetConcat(b[..j], b[j + 1..]);
  }

  /** Two orders of the same events never disagree about the shares: where both give a summary they
      give the same number. */
  lemma FoldsAgree(a: seq<IndexedEvent>, b: seq<IndexedEvent>)
    requires multiset(a) == multiset(b) && Fold(a).Some? && Fold(b).Some?
    ensures Fold(a).value.shares == Fold(b).value.shares
  {
    FoldSucceedsExactly(a);
    FoldSucceedsExactly(b);
    NetByMultiset(a, b);
  }

  lemma IndexedDelta(log: seq<Event>, e: Event, u: Pubkey, m: MarketId)
    ensures |Indexed(e, u, m)| <= 1
    ensures Indexed(e, u, m) == [] ==> NetShares(log + [e], u, m) == NetShares(log, u, m)
    ensures Indexed(e, u, m) != [] ==>
              var x := Indexed(e, u, m)[0];
              NetShares(log + [e], u, m) == NetShares(log, u, m) + Delta(x)
                  && (x.kind == DepositKind ==> x.assets.Some?)
  {
    hide NetShares;
    NetSharesPush(log, e, u, m);
  }

  lemma HistoryPush(log: seq<Event>, e: Event, u: Pubkey, m: MarketId)
    ensures HistoryOf(log + [e], u, m) == HistoryOf(log, u, m) + Indexed(e, u, m)
  {
    hide Indexed;
    assert (log + [e])[..|log|] == log;
  }

  lemma FoldPush(before: seq<IndexedEvent>, x: IndexedEvent)
    requires Fold(before).Some?
    ensures Fold(before + [x]) == FoldOne(Fold(before).value, x)
  {
    hide FoldOne;
    assert (before + [x])[..|before|] == before;
  }

  /** One more chain event folds to the user's new number of shares. */
  lemma FoldEvent(log: seq<Event>, e: Event, u: Pubkey, m: MarketId)
    requires Fold(HistoryOf(log, u, m)).Some? && Fold(HistoryOf(log, u, m)).value.shares == NetShares(log, u, m)
    requires NetShares(log + [e], u, m) >= 0
    ensures Fold(HistoryOf(log + [e], u, m)).Some?
        && Fold(HistoryOf(log + [e], u, m)).value.shares == NetShares(log + [e], u, m)
  {
    hide NetShares, Indexed, FoldOne, Delta, Fold, HistoryOf;
    IndexedDelta(log, e, u, m);
    HistoryPush(log, e, u, m);
    var before, added := HistoryOf(log, u, m), Indexed(e, u, m);
    if added == [] {
      assert before + added == before;
    } else {
      assert added == [added[0]];
      FoldPush(before, added[0]);
      FoldOneExactly(Fold(before).value, added[0]);
    }
  }

  /** The fold never throws on the events of a run, and what it returns is what the chain holds:
      the user's shares, with a cost basis within all deposits and zero when nothing is held. */
  lemma {:induction false} FoldMatchesChain(tokens: map<TokenKey, u64>, cs: seq<Command>, u: Pubkey, m: MarketId)
    requires Supply(tokens) <= U64_MAX
    ensures var s := Run(Initial(tokens), cs);
            var history := HistoryOf(s.log, u, m);
            && Fold(history).Some?
            && Fold(history).value.shares == LpTheorems.Held(s, m, u)
            && (forall e :: e in history && e.kind == DepositKind ==> e.shares > 0)
            && Fold(history).value.deposited <= TotalDeposits(history)
            && (LpTheorems.Held(s, m, u) == 0 ==> Fold(history).value.deposited == 0)
  {
    hide Apply, LpTheorems.Held, Supply, NetShares, FoldOne, Indexed;
    var s := Run(Initial(tokens), cs);
    LpTheorems.EventsTellHoldings(tokens, cs, m, u);
    if cs == [] {
      NoEvents(u, m);
    } else {
      var shorter := cs[..|cs| - 1];
      var before := Run(Initial(tokens), shorter);
      FoldMatchesChain(tokens, shorter, u, m);
      LpTheorems.EventsTellHoldings(tokens, shorter, m, u);
      Runs.RunKeepsInv(tokens, shorter);
      LogStep(before, cs[|cs| - 1]);
      if s.log != before.log {
        var e := s.log[|before.log|];
        FoldEvent(before.log, e, u, m);
        DepositsPositive(before.log, e, u, m);
      }
    }
    CostBasisBounded(HistoryOf(s.log, u, m));
  }

  /** As the client runs it: on the newest-first page of a run's events, the summary is defined and
      shows the shares the chain holds. */
  lemma SummaryMatchesChain(
    tokens: map<TokenKey, u64>, cs: seq<Command>, u: Pubkey, m: MarketId, newestFirst: seq<IndexedEvent>)
    requires Supply(tokens) <= U64_MAX
    requires newestFirst == Reversed(HistoryOf(Run(Initial(tokens), cs).log, u, m))
    ensures var summary := Fold(Reversed(newestFirst));
            summary.Some? && summary.value.shares == LpTheorems.Held(Run(Initial(tokens), cs), m, u)
  {
    hide Run, HistoryOf, Fold, LpTheorems.Held, Supply;
    FoldMatchesChain(tokens, cs, u, m);
    assert Reversed(newestFirst) == HistoryOf(Run(Initial(tokens), cs).log, u, m);
  }

  /** The tokens a user has deposited in a market, by the chain's own events. */
  function DepositedOnChain(log: seq<Event>, u: Pubkey, m: MarketId): nat {
    if log == [] then 0
    else
      var e := log[|log| - 1];
      DepositedOnChain(log[..|log| - 1], u, m)
        + if e.LiquidityDeposited? && e.user == u && e.marketId == m then e.assets else 0
  }

  /** The deposits that the client sums are the tokens that were deposited. */
  lemma {:induction false} DepositsMatchChain(log: seq<Event>, u: Pubkey, m: MarketId)
    ensures TotalDeposits(HistoryOf(log, u, m)) == DepositedOnChain(log, u, m)
  {
    if log != [] {
      var before, e := log[..|log| - 1], log[|log| - 1];
      DepositsMatchChain(before, u, m);
      OneDeposit(e, u, m);
      NetConcat(HistoryOf(before, u, m), Indexed(e, u, m));
    }
  }

  lemma OneDeposit(e: Event, u: Pubkey, m: MarketId)
    ensures TotalDeposits(Indexed(e, u, m))
         == if e.LiquidityDeposited? && e.user == u && e.marketId == m then e.assets else 0
  {
    var x := Indexed(e, u, m);
    if x != [] {
      assert x[..0] == [];
      assert TotalDeposits(x[..0]) == 0;
    }
  }

  lemma NoEvents(u: Pubkey, m: MarketId)
    ensures NetShares([], u, m) == 0
  {
  }

  lemma DepositsPositive(log: seq<Event>, e: Event, u: Pubkey, m: MarketId)
    requires forall x :: x in HistoryOf(log, u, m) && x.kind == DepositKind ==> x.shares > 0
    requires e.LiquidityDeposited? ==> e.shares > 0
    ensures forall x :: x in HistoryOf(log + [e], u, m) && x.kind == DepositKind ==> x.shares > 0
  {
    assert (log + [e])[..|log|] == log;
  }
}
