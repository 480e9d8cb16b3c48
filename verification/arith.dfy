/** Small facts about Euclidean division used by the fill-level proofs. */
module Arith {

  /** Removing one full buffer's worth of bytes leaves the remainder unchanged. */
  lemma ModAfterWrap(x: nat, c: nat, wrapped: bool)
    requires c > 0 && (wrapped ==> x >= c)
    ensures (x - (if wrapped then c else 0)) % c == x % c
  {
    if wrapped {
      var q, m := x / c, x % c;
      assert x == q * c + m;
      MulSub(q, 1, c);
      DivModUnique(x - c, c, q - 1, m);
    }
  }

  /** A count below the capacity is its own remainder. */
  lemma ModBelow(x: nat, c: nat)
    requires x < c
    ensures x % c == x
  {
  }

  /** Quotient and remainder are unique. */
  lemma DivModUnique(x: int, c: int, q: int, m: int)
    requires c > 0 && 0 <= m < c && x == q * c + m
    ensures x % c == m
  {
    var q', m' := x / c, x % c;
    assert x == q' * c + m';
    MulSub(q, q', c);
    MulSub(q', q, c);
    if q > q' {
      MulAtLeast(q - q', c);
    } else if q < q' {
      MulAtLeast(q' - q, c);
    }
  }

  lemma MulSub(a: int, b: int, c: int)
    ensures (a - b) * c == a * c - b * c
  {
  }

  lemma MulAtLeast(a: int, c: int)
    requires a >= 1 && c > 0
    ensures a * c >= c
  {
  }
}
