/** A number that goes the same share of the way to another, step after step. */
module Approach {
  function Power(x: real, n: nat): real { if n == 0 then 1.0 else x * Power(x, n - 1) }

  /** This share of the way on. */
  predicate PartOfWay(share: real, from: real, to: real, at: real) { at - from == share * (to - from) }

  /** So much of the gap there was at the beginning is left. */
  predicate Left(part: real, from: real, to: real, at: real) { at - to == part * (from - to) }

  predicate LeftAfter(n: nat, share: real, from: real, to: real, at: real) {
    Left(Power(1.0 - share, n), from, to, at)
  }

  lemma LeftNext(n: nat, share: real, from: real, to: real, before: real, at: real)
    requires LeftAfter(n, share, from, to, before) && PartOfWay(share, before, to, at)
    ensures LeftAfter(n + 1, share, from, to, at)
  {
    var power := Power(1.0 - share, n);
    assert at - to == (1.0 - share) * (before - to);
    assert (1.0 - share) * (power * (from - to)) == ((1.0 - share) * power) * (from - to);
  }

  lemma LeftAtFirst(share: real, from: real, to: real)
    ensures LeftAfter(0, share, from, to, from)
  {
  }
}
