/** Sums over lists and the few facts about products and quotients that the models share. */
module Arith {

  function Sum(xs: seq<int>): int {
    if xs == [] then 0 else Sum(xs[..|xs|-1]) + xs[|xs|-1]
  }

  lemma {:induction false} SumStep(xs: seq<int>, k: nat)
    requires k < |xs|
    ensures Sum(xs[..k+1]) == Sum(xs[..k]) + xs[k]
  {
    assert xs[..k+1][..k] == xs[..k];
  }

  lemma {:induction false} SumNone(xs: seq<int>)
    ensures Sum(xs[..0]) == 0
  {
  }

  lemma {:induction false} MulAway(k: int, m: int)
    requires m > 0
    ensures k >= 1 ==> k * m >= m
    ensures k <= -1 ==> k * m <= -m
  {
  }

  lemma {:induction false} MulOrder(x: int, y: int, m: int)
    requires m > 0 && x <= y
    ensures x * m <= y * m
  {
    assert (y - x) * m >= 0;
    assert (y - x) * m == y * m - x * m;
  }

  lemma {:induction false} DivUnique(x: int, m: int, q: int, r: int)
    requires m > 0 && x == q * m + r && 0 <= r < m
    ensures x / m == q && x % m == r
  {
    var q', r' := x / m, x % m;
    assert (q' - q) * m == q' * m - q * m == r - r';
    MulAway(q' - q, m);
  }
}
