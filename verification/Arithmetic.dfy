/** The few facts about products and quotients that the rounding arguments rest on. */
module Arithmetic {

  lemma Distribute(k: int, x: int, y: int)
    ensures k * (x + y) == k * x + k * y
  {
  }

  lemma MulLe(k: nat, x: int, y: int)
    requires x <= y
    ensures k * x <= k * y
  {
  }

  lemma Cancel(k: nat, x: int, y: int)
    requires k * x < k * y
    ensures x < y
  {
  }

  lemma ExactDivision(k: nat, x: nat)
    requires k > 0
    ensures k * x / k == x
  {
    var q := k * x / k;
    DivBounds(k * x, k);
    Distribute(k, q, 1);
    Cancel(k, x, q + 1);
    if q > x {
      MulLe(k, x + 1, q);
      Distribute(k, x, 1);
    }
  }

  lemma DivBounds(a: nat, b: nat)
    requires b > 0
    ensures b * (a / b) <= a < b * (a / b) + b
  {
  }
}
