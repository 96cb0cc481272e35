/** Facts about division the solver does not find by itself. */
module Arithmetic {

  lemma MulBounds(k: int, d: int)
    requires k > 0
    ensures d >= 1 ==> k * d >= k
    ensures d <= -1 ==> k * d <= -k
  {
  }

  lemma DivModUnique(x: int, k: int, q: int, r: int)
    requires k > 0 && x == k * q + r && 0 <= r < k
    ensures x / k == q && x % k == r
  {
    var q', r' := x / k, x % k;
    assert k * (q - q') == r' - r;
    MulBounds(k, q - q');
  }

  lemma FloorStep(x: int, k: int)
    requires k > 0
    ensures (x + 1) / k == x / k + (if (x + 1) % k == 0 then 1 else 0)
  {
    var q, r := x / k, x % k;
    if r == k - 1 {
      assert x + 1 == k * (q + 1);
      DivModUnique(x + 1, k, q + 1, 0);
    } else {
      assert x + 1 == k * q + (r + 1);
      DivModUnique(x + 1, k, q, r + 1);
    }
  }
}
