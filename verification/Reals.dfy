/** Facts about real numbers that the scoring modules share. */
module Reals {
  lemma ReciprocalFalls(x: real, y: real)
    requires 0.0 < x < y
    ensures 0.0 < 1.0 / y < 1.0 / x
  {
    assert 1.0 / x - 1.0 / y == (y - x) / (x * y);
    assert x * y > 0.0;
  }
}
