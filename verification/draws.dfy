/** Math.random() draws. Every random number the source takes is a
    parameter here: a real u with 0 <= u < 1. */
module Draws {

  predicate IsDraw(u: real)
  {
    0.0 <= u < 1.0
  }

  predicate AllDraws(us: seq<real>)
  {
    forall i :: 0 <= i < |us| ==> IsDraw(us[i])
  }

  /** A draw scaled to a range of width w and shifted by lo lands on one of
      the w integers from lo: Math.floor(u * w + lo). */
  lemma ScaledDrawInRange(u: real, lo: int, w: int)
    requires IsDraw(u) && w > 0
    ensures lo <= (u * w as real + lo as real).Floor < lo + w
  {
    var r := w as real;
    assert r - u * r == (1.0 - u) * r;
    assert (1.0 - u) * r > 0.0;
    assert 0.0 <= u * r;
  }

  /** `Math.floor(u * n)`: the index of a random element of an n-element
      array. */
  function PickIndex(u: real, n: nat): (i: nat)
    requires IsDraw(u) && n > 0
    ensures i < n
  {
    ScaledDrawInRange(u, 0, n);
    (u * n as real + 0 as real).Floor
  }
}
