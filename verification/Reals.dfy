/** Facts about real numbers that the scores and the token buckets share. */
module Reals {
  function Min(a: real, b: real): real {
    if a < b then a else b
  }

  function Max(a: real, b: real): real {
    if a > b then a else b
  }

  lemma {:induction false} ScaleKeepsOrder(a: real, b: real, r: real)
    requires a <= b && r > 0.0
    ensures a * r <= b * r
    ensures a < b ==> a * r < b * r
  {
    var d := b - a;
    assert d * r >= 0.0;
    assert a < b ==> d * r > 0.0;
    assert b * r == a * r + d * r;
  }
}
