/** Products and quotients. */
module Arithmetic {

  function Min(a: int, b: int): int { if a < b then a else b }

  function Max(a: int, b: int): int { if a < b then b else a }

  lemma TimesOrder(a: int, b: int, c: nat)
    ensures a <= b ==> a * c <= b * c
    ensures a < b ==> a * c + c <= b * c
  {
    if a < b {
      var m: nat := b - a - 1;
      assert b * c == a * c + c + m * c;
      assert m * c >= 0;
    }
  }

  /** Quotient and remainder are determined by what they add up to. */
  lemma QuotientIs(x: int, c: nat, q: int, r: int)
    requires 0 <= r < c
    ensures x == q * c + r <==> q == x / c && r == x % c
  {
    assert x == x / c * c + x % c;
    TimesOrder(q, x / c, c);
    TimesOrder(x / c, q, c);
  }
}
