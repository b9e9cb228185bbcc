/** The order in which the API serves a user's liquidity rows: by time, then signature, then the text
    of the log path, newest first. */
module LiquidityApi {
  import opened Rust
  import opened Protocol
  import opened Crawl
  import opened Projection
  import opened Storage
  import opened HistoryFold

  // ----- paths as text

  const DIGITS := "0123456789"

  /** A line index as it is printed. */
  function Decimal(n: nat): (r: string)
    ensures r != []
  {
    if n < 10 then [DIGITS[n]] else Decimal(n / 10) + [DIGITS[n % 10]]
  }

  function PathText(path: nat): string {
    "log/" + Decimal(path)
  }

  /** Text is compared character by character; a proper prefix comes first. */
  predicate TextLess(a: string, b: string) {
    b != [] && (a == [] || a[0] < b[0] || (a[0] == b[0] && TextLess(a[1..], b[1..])))
  }

  lemma {:induction false} TextLessIsStrict(a: string, b: string)
    ensures !(TextLess(a, b) && TextLess(b, a)) && !TextLess(a, a)
    ensures a != b ==> TextLess(a, b) || TextLess(b, a)
    decreases |a|
  {
    if a != [] {
      TextLessIsStrict(a[1..], if b == [] then [] else b[1..]);
      assert a == [a[0]] + a[1..];
      assert b != [] ==> b == [b[0]] + b[1..];
    }
  }

  lemma {:induction false} TextLessTransitive(a: string, b: string, c: string)
    requires TextLess(a, b) && TextLess(b, c)
    ensures TextLess(a, c)
    decreases |a|
  {
    if a != [] {
      if a[0] == b[0] && b[0] == c[0] {
        TextLessTransitive(a[1..], b[1..], c[1..]);
      }
    }
  }

  lemma {:induction false} CommonPrefix(front: string, a: string, b: string)
    ensures TextLess(front + a, front + b) == TextLess(a, b)
  {
    if front == [] {
      assert front + a == a && front + b == b;
    } else {
      CommonPrefix(front[1..], a, b);
      assert (front + a)[1..] == front[1..] + a && (front + b)[1..] == front[1..] + b;
    }
  }

  /** Between texts of one length, what follows decides only when they are equal. */
  lemma {:induction false} LongerText(a: string, b: string, x: string, y: string)
    requires |a| == |b|
    ensures TextLess(a + x, b + y) <==> TextLess(a, b) || (a == b && TextLess(x, y))
  {
    if a == [] {
      assert a + x == x && b + y == y;
    } else {
      LongerText(a[1..], b[1..], x, y);
      assert (a + x)[1..] == a[1..] + x && (b + y)[1..] == b[1..] + y;
      assert a == [a[0]] + a[1..] && b == [b[0]] + b[1..];
    }
  }

  lemma DigitOrder(m: nat, n: nat)
    requires m < 10 && n < 10
    ensures TextLess([DIGITS[m]], [DIGITS[n]]) <==> m < n
    ensures [DIGITS[m]] == [DIGITS[n]] <==> m == n
  {
    assert DIGITS == ['0', '1', '2', '3', '4', '5', '6', '7', '8', '9'];
  }

  /** Numbers of one length are printed in their own order. */
  lemma {:induction false} SameLengthOrder(m: nat, n: nat)
    requires |Decimal(m)| == |Decimal(n)|
    ensures TextLess(Decimal(m), Decimal(n)) <==> m < n
    ensures Decimal(m) == Decimal(n) <==> m == n
  {
    if m < 10 {
      DigitOrder(m, n);
    } else {
      SameLengthOrder(m / 10, n / 10);
      DigitOrder(m % 10, n % 10);
      LongerText(Decimal(m / 10), Decimal(n / 10), [DIGITS[m % 10]], [DIGITS[n % 10]]);
      assert Decimal(m)[..|Decimal(m)| - 1] == Decimal(m / 10) && Decimal(n)[..|Decimal(n)| - 1] == Decimal(n / 10);
      assert Decimal(m)[|Decimal(m)| - 1..] == [DIGITS[m % 10]] && Decimal(n)[|Decimal(n)| - 1..] == [DIGITS[n % 10]];
    }
  }

  lemma {:induction false} LongerIsLarger(m: nat, n: nat)
    requires |Decimal(m)| < |Decimal(n)|
    ensures m < n
  {
    if m >= 10 {
      LongerIsLarger(m / 10, n / 10);
    }
  }

  /** What is left of the longer number when as many last digits are dropped as it is longer by. */
  function Leading(n: nat, digits: nat): nat
    requires 0 < digits <= |Decimal(n)|
  {
    if |Decimal(n)| == digits then n else Leading(n / 10, digits)
  }

  lemma {:induction false} LeadingIsPrefix(n: nat, digits: nat) returns (rest: string)
    requires 0 < digits <= |Decimal(n)|
    ensures |Decimal(Leading(n, digits))| == digits && Decimal(n) == Decimal(Leading(n, digits)) + rest
    ensures rest == [] <==> digits == |Decimal(n)|
  {
    if |Decimal(n)| == digits {
      rest := [];
    } else {
      var inner := LeadingIsPrefix(n / 10, digits);
      rest := inner + [DIGITS[n % 10]];
    }
  }

  /** The text order of two log lines, exactly: the shorter number comes first when it is at most the
      leading digits of the longer one, so log/11 comes before log/6. */
  lemma PathOrder(m: nat, n: nat)
    requires |Decimal(m)| < |Decimal(n)|
    ensures TextLess(PathText(m), PathText(n)) <==> m <= Leading(n, |Decimal(m)|)
    ensures TextLess(PathText(n), PathText(m)) <==> Leading(n, |Decimal(m)|) < m
  {
    var lead := Leading(n, |Decimal(m)|);
    var rest := LeadingIsPrefix(n, |Decimal(m)|);
    assert Decimal(m) == Decimal(m) + [];
    LongerText(Decimal(m), Decimal(lead), [], rest);
    LongerText(Decimal(lead), Decimal(m), rest, []);
    SameLengthOrder(m, lead);
    SameLengthOrder(lead, m);
    CommonPrefix("log/", Decimal(m), Decimal(n));
    CommonPrefix("log/", Decimal(n), Decimal(m));
  }

  lemma SamePathOrder(m: nat, n: nat)
    requires |Decimal(m)| == |Decimal(n)|
    ensures TextLess(PathText(m), PathText(n)) <==> m < n
  {
    SameLengthOrder(m, n);
    CommonPrefix("log/", Decimal(m), Decimal(n));
  }

  // ----- rows

  /** A row of the liquidity table. */
  datatype LiquidityItem = LiquidityItem(key: EventKey, row: EventRow)

  /** Rows without a time sort as the epoch. */
  function SortTime(item: LiquidityItem): int {
    match item.row.occurredAt
    case None => 0
    case Some(t) => t
  }

  /** `ORDER BY sort_time, signature, instruction_path`; the client asks for one market, so the place
      of the market in the order never decides. Signatures are numbered in the order of their text. */
  predicate Earlier(a: LiquidityItem, b: LiquidityItem) {
    || SortTime(a) < SortTime(b)
    || (&& SortTime(a) == SortTime(b)
        && (|| a.key.signature < b.key.signature
            || (a.key.signature == b.key.signature && TextLess(PathText(a.key.path), PathText(b.key.path)))))
  }

  /** A row without a time is older than any row with a time after the epoch, and among equal times and
      signatures only the text of the line decides. */
  lemma UntimedIsEpoch(a: LiquidityItem, b: LiquidityItem)
    ensures a.row.occurredAt == None && b.row.occurredAt.Some? && b.row.occurredAt.value > 0 ==>
              Earlier(a, b) && !Earlier(b, a)
    ensures a.row.occurredAt == b.row.occurredAt && a.key.signature == b.key.signature ==>
              (Earlier(a, b) <==> TextLess(PathText(a.key.path), PathText(b.key.path)))
  {
  }

  lemma EarlierTransitive(a: LiquidityItem, b: LiquidityItem, c: LiquidityItem)
    requires Earlier(a, b) && Earlier(b, c)
    ensures Earlier(a, c)
  {
    hide TextLess, PathText;
    if TextLess(PathText(a.key.path), PathText(b.key.path)) && TextLess(PathText(b.key.path), PathText(c.key.path)) {
      TextLessTransitive(PathText(a.key.path), PathText(b.key.path), PathText(c.key.path));
    }
  }

  /** Two rows of different transactions or different lines are ordered one way or the other. */
  lemma EarlierTotal(a: LiquidityItem, b: LiquidityItem)
    ensures !(Earlier(a, b) && Earlier(b, a))
    ensures (a.key.signature, a.key.path) != (b.key.signature, b.key.path) ==> Earlier(a, b) || Earlier(b, a)
  {
    hide TextLess, PathText;
    var m, n := a.key.path, b.key.path;
    TextLessIsStrict(PathText(m), PathText(n));
    if m != n {
      PathsDiffer(m, n);
    }
  }

  lemma PathsDiffer(m: nat, n: nat)
    requires m != n
    ensures PathText(m) != PathText(n)
  {
    assert PathText(m)[4..] == Decimal(m) && PathText(n)[4..] == Decimal(n);
    if |Decimal(m)| == |Decimal(n)| {
      SameLengthOrder(m, n);
    }
  }

  ghost predicate Ascending(items: seq<LiquidityItem>) {
    forall i, j :: 0 <= i < j < |items| ==> Earlier(items[i], items[j])
  }

  /** The rows of one user and market. */
  predicate Selected(table: map<EventKey, EventRow>, u: Pubkey, m: MarketId, k: EventKey) {
    k in table && Indexed(table[k].event, u, m) != []
  }

  /** The list holds exactly the selected rows of the table. */
  ghost predicate ListsRows(items: seq<LiquidityItem>, table: map<EventKey, EventRow>, u: Pubkey, m: MarketId) {
    && (forall x :: x in items ==> Selected(table, u, m, x.key) && x.row == table[x.key])
    && (forall k :: Selected(table, u, m, k) ==> LiquidityItem(k, table[k]) in items)
  }

  /** What the API answers, page after page: the selected rows, newest first. */
  ghost predicate Answers(newestFirst: seq<LiquidityItem>, table: map<EventKey, EventRow>, u: Pubkey, m: MarketId) {
    Ascending(Reversed(newestFirst)) && ListsRows(Reversed(newestFirst), table, u, m)
  }

  // ----- one answer, and no more than one

  lemma {:induction false} Insert(sorted: seq<LiquidityItem>, x: LiquidityItem) returns (r: seq<LiquidityItem>)
    requires Ascending(sorted)
    requires forall y :: y in sorted ==> (y.key.signature, y.key.path) != (x.key.signature, x.key.path)
    ensures Ascending(r) && forall y :: y in r <==> y == x || y in sorted
  {
    hide Earlier;
    if sorted == [] {
      r := [x];
    } else {
      var first := sorted[0];
      assert sorted == [first] + sorted[1..];
      EarlierTotal(x, first);
      if Earlier(x, first) {
        r := [x] + sorted;
        forall j | 0 < j < |sorted|
          ensures Earlier(x, sorted[j])
        {
          EarlierTransitive(x, first, sorted[j]);
        }
      } else {
        var rest := Insert(sorted[1..], x);
        r := [first] + rest;
        forall j | 0 <= j < |rest|
          ensures Earlier(first, rest[j])
        {
          assert rest[j] in rest;
          if rest[j] != x {
            var k :| 0 <= k < |sorted[1..]| && sorted[1..][k] == rest[j];
            assert sorted[k + 1] == rest[j];
          }
        }
      }
    }
  }

  /** No two rows of the table come from one line of one log. */
  ghost predicate OneRowPerLine(table: map<EventKey, EventRow>) {
    forall k, k' :: k in table && k' in table && (k.signature, k.path) == (k'.signature, k'.path) ==> k == k'
  }

  lemma {:induction false} SortKeys(keys: set<EventKey>, table: map<EventKey, EventRow>) returns (r: seq<LiquidityItem>)
    requires OneRowPerLine(table) && keys <= table.Keys
    ensures Ascending(r) && forall x :: x in r <==> x.key in keys && x.row == table[x.key]
  {
    hide Earlier, Ascending;
    if keys == {} {
      r := [];
      NothingAscends();
    } else {
      var k :| k in keys;
      var rest := SortKeys(keys - {k}, table);
      r := Insert(rest, LiquidityItem(k, table[k]));
    }
  }

  lemma NothingAscends()
    ensures Ascending([])
  {
  }

  /** There is an answer. */
  lemma AnswerExists(table: map<EventKey, EventRow>, u: Pubkey, m: MarketId) returns (newestFirst: seq<LiquidityItem>)
    requires OneRowPerLine(table)
    ensures Answers(newestFirst, table, u, m)
  {
    hide Ascending, Indexed;
    var keys := set k | k in table && Selected(table, u, m, k);
    var sorted := SortKeys(keys, table);
    newestFirst := Reversed(sorted);
    assert Reversed(newestFirst) == sorted;
  }

  /** Two ascending lists of the same rows are the same list. */
  lemma {:induction false} SortedOnce(a: seq<LiquidityItem>, b: seq<LiquidityItem>)
    requires Ascending(a) && Ascending(b) && forall x :: x in a <==> x in b
    ensures a == b
    decreases |a|
  {
    hide Earlier;
    if a == [] {
      NoMembers(b);
    } else {
      assert a[0] in a && a[0] in b;
      FirstIsLeast(a, b);
      FirstIsLeast(b, a);
      EarlierTotal(a[0], b[0]);
      assert a == [a[0]] + a[1..] && b == [b[0]] + b[1..];
      TailWithout(a);
      TailWithout(b);
      SortedOnce(a[1..], b[1..]);
    }
  }

  lemma NoMembers(b: seq<LiquidityItem>)
    ensures b == [] || exists x :: x in b
  {
    assert b == [] || b[0] in b;
  }

  lemma FirstIsLeast(a: seq<LiquidityItem>, b: seq<LiquidityItem>)
    requires a != [] && b != [] && Ascending(a) && b[0] in a
    ensures a[0] == b[0] || Earlier(a[0], b[0])
  {
    hide Earlier;
    var k :| 0 <= k < |a| && a[k] == b[0];
  }

  lemma TailWithout(a: seq<LiquidityItem>)
    requires a != [] && Ascending(a)
    ensures forall x :: x in a[1..] <==> x in a && x != a[0]
  {
    hide Earlier;
    EarlierTotal(a[0], a[0]);
    assert a == [a[0]] + a[1..];
  }
}
