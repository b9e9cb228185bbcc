/** Facts about products and quotients of unknowns, proved once and used by name. */
module Arithmetic {
  import opened Rust

  lemma MulMono(a: int, b: int, c: int)
    requires a <= b && c >= 0
    ensures a * c <= b * c
  {
  }

  lemma MulCancel(a: int, b: int, c: int)
    requires c > 0 && a * c <= b * c
    ensures a <= b
  {
  }

  lemma MulBound(a: int, b: int, A: int, B: int)
    requires 0 <= a <= A && -B <= b <= B
    ensures -(A * B) <= a * b <= A * B
  {
    MulMono(-B, b, a);
    MulMono(b, B, a);
    MulMono(a, A, B);
  }

  lemma Regroup(a: int, b: int, c: int)
    ensures (a * b) * c == (a * c) * b == a * (b * c)
  {
  }

  lemma FloorBounds(a: int, b: int)
    requires b > 0
    ensures (a / b) * b <= a < (a / b) * b + b
  {
  }

  /** The quotient is the greatest q with q * b <= a. */
  lemma FloorIsGreatest(a: int, b: int, q: int)
    requires b > 0
    ensures q <= a / b <==> q * b <= a
  {
    FloorBounds(a, b);
    if q <= a / b {
      MulMono(q, a / b, b);
    } else {
      MulMono(a / b + 1, q, b);
    }
  }

  lemma FloorMono(a: int, b: int, c: int)
    requires a <= b && c > 0
    ensures a / c <= b / c
  {
    FloorBounds(a, c);
    FloorIsGreatest(b, c, a / c);
  }

  /** A sum of floors is at most the floor of the sum. */
  lemma FloorOfSum(a: int, b: int, c: int)
    requires c > 0
    ensures a / c + b / c <= (a + b) / c
  {
    FloorBounds(a, c);
    FloorBounds(b, c);
    FloorIsGreatest(a + b, c, a / c + b / c);
  }

  lemma QuotientShrinks(a: int, b: int)
    requires a >= 0 && b > 0
    ensures 0 <= a / b <= a
  {
    FloorBounds(a, b);
    FloorIsGreatest(a, b, 0);
    MulMono(1, b, a / b);
  }

  lemma TruncDivShrinks(a: int, b: int)
    requires b > 0
    ensures a >= 0 ==> 0 <= TruncDiv(a, b) <= a
    ensures a < 0 ==> a <= TruncDiv(a, b) <= 0
  {
    QuotientShrinks(if a >= 0 then a else -a, b);
  }

  lemma TruncDivMono(a: int, b: int, c: int)
    requires a <= b && c > 0
    ensures TruncDiv(a, c) <= TruncDiv(b, c)
  {
    if a >= 0 {
      FloorMono(a, b, c);
    } else if b < 0 {
      FloorMono(-b, -a, c);
    } else {
      TruncDivShrinks(a, c);
      TruncDivShrinks(b, c);
    }
  }

  lemma TruncDivOdd(a: int, b: int)
    requires b > 0
    ensures TruncDiv(-a, b) == -TruncDiv(a, b)
  {
  }
}
